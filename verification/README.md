# Models and proofs for idp-sdk

idp-sdk is a set of thin Go packages over Redis, Kafka, AMQP, NATS, PostgreSQL, HTTP and Gin. Several of them
contain a small protocol whose promise depends on the order of steps, on crashes and on time. This project
models those packages in Dafny and proves what they promise, or exactly when they keep it.

`dafny verify dfyconfig.toml` checks everything.

## How to read it

A protocol is a machine: a `State`, an `Event` type, a total `Step`, and `Run` over any sequence of events. The
server or broker behind the package is part of the machine, with the assumptions stated below; the clients' own
statements are the events. An event that is not enabled changes nothing (or, in the queue models, does not
happen), so a theorem about every event sequence is a theorem about every interleaving, crash and lost answer.

Beside each machine stands the Go code itself, as methods with loops and mutable state. Such a method takes what
everybody else does between its steps as a parameter and is proved to extend the machine's history by steps the
machine allows, so the machine's theorems hold of it.

| files | package |
|---|---|
| `RateLimit`, `RateLimitGuarantees`, `RateLimitBursts`, `RateLimitClient` | fixed-window limiter over shared Redis |
| `RedisLock` | the SETNX lock |
| `Kafka`, `KafkaConsumer`, `KafkaSessions` | consumer groups: at least once, one reader at a time |
| `Queue`, `RabbitQueue`, `NatsQueue` | one abstract queue and the two consumers that refine it |
| `Reconnect`, `ReconnectClient` | the RabbitMQ connection life cycle |
| `Text`, `Config`, `ConfigGuarantees` | the environment loader and the text routines under it |
| `HttpClient` | the retry loop |
| `Health` | concurrent readiness checks |
| `Postgres` | the transaction wrapper |
| `Claims`, `AuthChain` | claims, roles, and the middleware on Gin's handler chain |
| `Prelude`, `Trace` | shared vocabulary, sequences of events |

## Assumptions

- Rate limiter: one integer-second clock read by all replicas and by Redis; EXPIRE gives a key a lifetime of at
  least the window; commands execute atomically, at most once each. The window is at least one second (below
  that the source divides by zero). The machine is one limiter's; which limiters share counters with it is said by
  `RateLimitClient.LimitersShareExactlyOnPrefix`. A TTL of -1ns or -2ns (no expiry, no key) becomes Retry-After 0.
- A key and bucket (or a name, for the bounds per interval) is "prompt" in a run if every INCR on it executes
  before the bucket its call computed is over. The exact bounds assume that of the key they speak of;
  `CapPerIncarnation` and `CapWithLateIncrs` assume nothing, and `LateIncrsReachCap` shows what lateness costs.
- Lock: Redis keeps an entry exactly until its lifetime lapses, for ever if the lifetime is zero.
- Kafka: a reader that is given a partition starts at its committed offset; the broker accepts any commit, also
  one that moves the offset backwards; messages are not removed from the log. One Consume call runs on a Consumer
  at a time: two would share its reader, and one could commit past a message the other is still handling.
- RabbitMQ: a negative answer requeues its message. A lost session's unacknowledged messages are requeued if the
  queue is durable; a queue that is not is exclusive and auto-delete and is deleted with its session. A session that
  ends may still hand over buffered deliveries or drop them and close the channel.
- NATS: the durable name is not empty (without one JetStream keeps no acknowledgements beyond the consumer). A
  negative answer or an expired ack wait makes a message available again, and an ack is taken from any delivery.
- Reconnection: the AMQP library closes a channel with its connection, and reports a failure once, some time after
  it, to whoever is listening then. A notification asked of a connection whose failure has been reported, or that
  was closed on purpose, comes at once and carries no error.
- HTTP: `float64` represents the base delay and its doublings exactly; what the conversion makes of a value of
  2^63 ns or more is a parameter. An attempt takes at most the client's timeout where a bound is claimed. How much
  of the body each attempt has read by its end, and whether closing the reader is for good, are parameters; what a
  server or transport makes of a shortened or closed body is in its answer.
- PostgreSQL: a commit that reports an error was not applied; a transaction holds one connection until it is ended.
- Loader: the parsers of durations, floats and `encoding.TextUnmarshaler` types are parameters.
- Gin: at most 62 handlers in a chain, which Gin enforces when a route is registered. Token validation is a
  function fixed for the request.

## Where the code departs from its comments

The models follow the code.

- `messaging/kafka/kafka.go:93-97` promises redelivery. A handler error ends `Consume`, but the reader is already
  past the message; calling `Consume` again on it loses that message with the next commit. Exactly when this is
  safe: `Kafka.ResumeSafeExactlyWhenNothingSkipped`.
- `messaging/rabbitmq/rabbitmq.go:151` says queues are durable by default. The zero value declares one that is not,
  and so does an empty queue name: the broker deletes it, with its messages, when the connection goes. Exactly
  when messages are kept: `RabbitQueue.KeptExactlyWhenDurable`.
- `messaging/rabbitmq/rabbitmq.go:116` says Close closes the connection. A dial that overlaps Close is installed
  afterwards and stays open. Exactly when nothing survives: `Reconnect.CloseWillBeFinalExactlyWhenCloseable` before
  the call, `Reconnect.CloseIsFinalExactlyWhenSettled` after it.
- `messaging/rabbitmq/rabbitmq.go:36-38` promises reconnection until Close. The loop can end without it
  (`Reconnect.GivingUpUncalledHappens`), exactly as `Reconnect.GivesUpUncalledExactlyWhenTooLate` says.
- `database/postgres/postgres.go:74-77` says WithTx commits if the function returns nil. It also commits when the
  function leaves by `runtime.Goexit`, since no panic and no error is seen.
- `config/config.go:6` says a variable is required unless it has a default. The code requires it only if it is
  marked so; otherwise the field is kept. A number outside a narrow field's range is wrapped without an error,
  and an empty list is read back as a list of one empty string (`ConfigGuarantees.FieldRoundTrip`).
- `ratelimit/ratelimit.go:37-39` says the returned duration is the time until the window resets. It is the key's
  remaining lifetime, which runs from the first EXPIRE and so may reach into the next bucket
  (`RateLimitGuarantees.OvershootHappensExactly`), and zero while the key has no expiry
  (`RateLimitGuarantees.DeniedWithoutExpiryHappens`). Exactly when it is right: `RateLimitGuarantees.RetryAfterIsExact`.
- `database/httpclient/httpclient.go:64-66` says a body must support `GetBody`. Without it the retry is made all the
  same, with what the attempts before it have left of the body: all of it if they could not connect, usually
  nothing, or a closed reader (`HttpClient.EveryAttemptCarriesBody`, `HttpClient.RetryCarriesRest`).

## Model

| member | source | states |
|---|---|---|
| RateLimit.StepKeepsInv | ratelimit/ratelimit.go:40-63 | every step of any replica, the clock, a crash or a lost answer keeps: a live counter equals the INCRs that hit this incarnation, any expiry is at or after the end of the bucket, a key without expiry belongs to a creator that has not set one |
| RateLimitGuarantees.RunKeepsInv | ratelimit/ratelimit.go:40-63 | the invariant holds along every run |
| RateLimitGuarantees.DistinctCounts | ratelimit/ratelimit.go:43 | two calls on one incarnation of a key never get the same count |
| RateLimitGuarantees.CapPerIncarnation | ratelimit/ratelimit.go:43-62 | whatever the timing, one incarnation of a key admits at most max(limit, 0) calls |
| RateLimitGuarantees.CapWithLateIncrs | ratelimit/ratelimit.go:41-62 | without any timing assumption, one key and bucket admits at most max(limit, 0) calls plus one for each INCR that lands after the bucket |
| RateLimitGuarantees.AtMostLimit | ratelimit/ratelimit.go:40-63 | if the INCRs on one key and bucket are prompt, at most max(limit, 0) calls are allowed for it, whatever happens on other keys |
| RateLimitGuarantees.RefinesAtomic | ratelimit/ratelimit.go:43-62 | every answered call is told what an atomic counter decides at the position of its INCR, remaining value included |
| RateLimitGuarantees.ExactlyLimit | ratelimit/ratelimit.go:58-62 | with no errors, n calls in a bucket give exactly min(n, limit) admissions |
| RateLimitGuarantees.FailOpenCost | ratelimit/ratelimit.go:74-89 | requests passed by the fail-open middleware are the allowed ones plus the errored ones, so at most the limit plus the errors |
| RateLimitGuarantees.RetryLandsLater | ratelimit/ratelimit.go:53-59 | retrying a denied call after Retry-After lands in a later bucket if and only if TTL did not find the key without expiry inside its bucket; the wait never exceeds the lifetime EXPIRE sets |
| RateLimitGuarantees.PersistentMeansUnset | ratelimit/ratelimit.go:47-53 | TTL finds no expiry only while the key's creating call is between INCR and EXPIRE, or died or failed there |
| RateLimitGuarantees.IncrAtRedis | ratelimit/ratelimit.go:43-47 | an executed INCR counts a live key up and starts any other at 1 without expiry, answer or no answer; one not executed changes nothing; the call goes on to EXPIRE exactly on a 1 |
| RateLimitGuarantees.ExpireAtRedis | ratelimit/ratelimit.go:48-50 | an executed EXPIRE gives a live key its lifetime from then on, answer or no answer; one not executed changes nothing |
| RateLimitGuarantees.DeniedWithoutExpiryHappens | ratelimit/ratelimit.go:47-59 | under every limit a call is reachable that is denied inside its bucket and told to retry at once |
| RateLimitGuarantees.RetryOvershoot | ratelimit/ratelimit.go:47-59 | a wait taken from the key's expiry ends after the bucket by as much as EXPIRE came after the bucket's start, plus what the lifetime has over the window |
| RateLimitGuarantees.RetryAfterIsExact | ratelimit/ratelimit.go:37-62 | for a call denied inside its bucket the wait ends with the bucket if and only if EXPIRE ran at the bucket's start and set just the window, or TTL went unanswered at the start |
| RateLimitGuarantees.OvershootHappensExactly | ratelimit/ratelimit.go:47-59 | a call denied inside its bucket and sent beyond the bucket's end is reachable if and only if the window is at least two seconds or the lifetime exceeds it |
| RateLimitBursts.BurstBoundWithLate | ratelimit/ratelimit.go:4-7 | without any timing assumption, any stretch of L seconds admits at most limit * (ceil(L / window) + 1) calls for a key plus one for each of its INCRs in that stretch that lands after its bucket |
| RateLimitBursts.BurstBound | ratelimit/ratelimit.go:4-7 | if the key's INCRs are prompt, the first term is all |
| RateLimitBursts.WindowBound | ratelimit/ratelimit.go:4-7 | one window's worth of time admits at most twice the limit |
| RateLimitBursts.BurstsReachBound | ratelimit/ratelimit.go:4-7 | for every limiter and every span a prompt run reaches that bound, so it is tight |
| RateLimitBursts.LateIncrsReachCap | ratelimit/ratelimit.go:41-43 | for every limit of at least one, every key and bucket and every n there is a run with n late INCRs and n calls past the limit: promptness is needed and the cap with late INCRs is tight |
| RateLimitClient.Allow | ratelimit/ratelimit.go:40-63 | Allow, interleaved with anything, takes one call of the protocol to its end and returns its reply; it errors exactly when INCR, or the EXPIRE after a count of 1, goes unanswered |
| RateLimitClient.Middleware | ratelimit/ratelimit.go:72-91 | the request is passed on exactly when the protocol counts its call as passed; the headers and status are those of its reply |
| RateLimitClient.RedisKeyInjective | ratelimit/ratelimit.go:41 | within one limiter different keys and buckets never share a Redis key, whatever colons the keys contain |
| RateLimitClient.KeyText | ratelimit/ratelimit.go:29-41 | a Redis key is the prefix, a colon, the caller's key, a colon and the bucket's decimal digits, with "ratelimit" for an empty prefix |
| RateLimitClient.SharedCounter | ratelimit/ratelimit.go:41 | two limiters' keys are the same Redis key if and only if prefix and key read the same together and the buckets agree |
| RateLimitClient.LimitersShareExactlyOnPrefix | ratelimit/ratelimit.go:29-41 | two limiters can share a counter if and only if one's prefix with its colon begins the other's, the default standing for an empty prefix |
| RedisLock.StepKeepsInv | cache/redis/redis.go:69-81 | every timely step keeps: a holder within its lifetime owns the stored entry, and each entry belongs to the attempt that set it |
| RedisLock.SetNxAtRedis | cache/redis/redis.go:70 | an executed SETNX sets a key that is absent or lapsed, with its lifetime, answer or no answer; any other changes nothing |
| RedisLock.DelAtRedis | cache/redis/redis.go:78 | an executed DEL removes the key whoever set it, answer or no answer |
| RedisLock.MutualExclusion | cache/redis/redis.go:69-81 | in every disciplined run no two clients hold one lock |
| RedisLock.DelRemovesOwnEntry | cache/redis/redis.go:77-79 | in a disciplined run each executed DEL removes the caller's own live entry and nothing else |
| RedisLock.AcquiresExactlyWhenLapsed | cache/redis/redis.go:70 | the next Lock acquires if and only if the entry present had a lifetime and it is over, whether its setter holds it, crashed, never heard of it or failed to delete it |
| RedisLock.LockLastsItsLifetime | cache/redis/redis.go:69-73 | after an acquiring Lock(key, ttl), while no DEL on the key executes, nobody else gets the lock before ttl has passed, ever if ttl is zero, and the first to ask gets it once it has |
| RedisLock.HeldForItsLifetime | cache/redis/redis.go:69-81 | an acquirer that has neither released nor crashed holds the lock exactly until ttl has passed |
| RedisLock.NoLifetimeNoRecovery | cache/redis/redis.go:70-79 | an entry without a lifetime whose setter does not hold it blocks the lock for the rest of every disciplined run |
| RedisLock.ReleaseIsSafeExactlyWhenNoOtherHolds | cache/redis/redis.go:77-79 | after a DEL executed, timely or not, every disciplined continuation keeps one holder to a lock if and only if no other client held this one |
| RedisLock.OwnerKnowsWhenReleaseIsSafe | cache/redis/redis.go:69-81 | another client can hold a caller's lock only if the caller has released before, has crashed, or is past its lifetime |
| RedisLock.LateReleaseBreaksExclusion | cache/redis/redis.go:69-81 | a concrete undisciplined run with two holders |
| RedisLock.Lock | cache/redis/redis.go:69-81 | Lock hands out a release exactly when its SETNX was answered and found no entry still alive; the entry it set lapses ttl later, or never if ttl is zero |
| RedisLock.ReleaseFunc.Call | cache/redis/redis.go:77-79 | each call of the closure is one DEL of the protocol, not checked against anything |
| Kafka.StepKeepsInv | messaging/kafka/kafka.go:98-116 | every careful step of members, broker and rebalances keeps the at-least-once invariant |
| Kafka.CommittedMeansHandled | messaging/kafka/kafka.go:93-116 | in every careful run every offset below a committed offset has had a handler call return nil, also after backward commits |
| Kafka.UncommittedIsHandledNext | messaging/kafka/kafka.go:93-97 | from any point of any careful run, a member that joins and is given the partition next has the first message behind the committed offset in its handler |
| Kafka.SkippedMessageIsLost | messaging/kafka/kafka.go:108-112 | re-entering Consume after a handler error, on a reader past the failed message, loses it with the next commit |
| Kafka.ResumeSafeExactlyWhenNothingSkipped | messaging/kafka/kafka.go:93-116 | re-entering Consume keeps the promise in every careful continuation if and only if no message was skipped |
| Kafka.SkippingHappens | messaging/kafka/kafka.go:108-110 | such a reader is reachable |
| KafkaConsumer.TakeTurn | messaging/kafka/kafka.go:100-114 | one turn of the loop: fetch, then the handler, then the commit only if it returned nil; which steps it took, and where the reader is left |
| KafkaConsumer.Consume | messaging/kafka/kafka.go:98-116 | Consume takes each message through fetch, handler and commit before the next fetch and does nothing more after the first error |
| KafkaSessions.StepKeepsInv | messaging/kafka/kafka.go:98-116 | with one reader at a time and no rebalances, every step keeps the account and the order below |
| KafkaSessions.SuccessesAccounted | messaging/kafka/kafka.go:93-116 | successful handler calls are the committed messages plus the sessions that ended between success and durable commit plus the one in flight |
| KafkaSessions.RepeatsAccounted | messaging/kafka/kafka.go:93-97 | successful handler calls exceed the distinct messages handled by at most one for each session that ended uncommitted and one in flight, over all partitions |
| KafkaSessions.SessionsHandleInOrder | messaging/kafka/kafka.go:98-116 | within a session the offsets handled of a partition are contiguous and increasing |
| Queue.StepKeepsInv | messaging/rabbitmq/rabbitmq.go:179-193 | the abstract queue keeps each message in exactly one of ready, unacknowledged, acknowledged and lost, acknowledged implies handled, and a durable queue loses none |
| RabbitQueue.StepRefines | messaging/rabbitmq/rabbitmq.go:162-193 | every step of the RabbitMQ consumer and its broker is a step of the abstract queue; a lost session requeues on a durable queue and deletes any other |
| RabbitQueue.RunRefines | messaging/rabbitmq/rabbitmq.go:162-193 | under every configuration every run, however sessions come, go and fail, stays in reachable states of the abstract queue of that durability |
| RabbitQueue.AcknowledgedMeansHandled | messaging/rabbitmq/rabbitmq.go:187-191 | each published message is in one place, has at most one outstanding tag, and is acknowledged only if a handler returned nil; a durable queue has lost none |
| RabbitQueue.HeldIsOutstanding | messaging/rabbitmq/rabbitmq.go:174-187 | in every run, what a living session was sent and has not answered is outstanding at the broker |
| RabbitQueue.AnswerSettles | messaging/rabbitmq/rabbitmq.go:187-191 | an answer that arrives from a living session takes the tag away and acknowledges the message, or makes it ready again; any other changes nothing at the broker |
| RabbitQueue.UnacknowledgedCanBeHandled | messaging/rabbitmq/rabbitmq.go:154-193 | on a durable queue a published message that is not acknowledged can still come to a handler, from any point of any run |
| RabbitQueue.KeptExactlyWhenDurable | messaging/rabbitmq/rabbitmq.go:162-166 | from any point of any run, every continuation keeps every published message if and only if the configuration asks for a durable queue and names it |
| RabbitQueue.ExitedSessionKeepsMessages | messaging/rabbitmq/rabbitmq.go:181-185 | after Consume returned, what its session was sent stays unacknowledged until the session is lost |
| RabbitQueue.Broker.Answer | messaging/rabbitmq/rabbitmq.go:187-191 | Ack if the handler returned nil and Nack otherwise, and what that changes at the broker |
| RabbitQueue.TakeTurn | messaging/rabbitmq/rabbitmq.go:180-192 | one turn of the select: a delivery is handled once and answered as its handler said; if the answer arrives and the session lives, the tag is gone and the message is acknowledged on success and ready again on failure |
| RabbitQueue.Consume | messaging/rabbitmq/rabbitmq.go:174-194 | from the start of its session deliveries are handled and answered one by one; the loop ends only with the context or, on a dead session, with the channel |
| NatsQueue.StepRefines | messaging/nats/nats.go:139-145 | every step of the JetStream consumer, late acks of repeated deliveries included, is a step of the abstract queue |
| NatsQueue.RunRefines | messaging/nats/nats.go:131-152 | every run stays in reachable states of the abstract queue |
| NatsQueue.AcknowledgedMeansHandled | messaging/nats/nats.go:123-125 | each published message is in one place, and is acknowledged only if a handler returned nil |
| NatsQueue.AnswerSettles | messaging/nats/nats.go:140-144 | an arriving Ack acknowledges, an arriving Nak makes the message available again unless it is acknowledged, and an answer that does not arrive changes nothing |
| NatsQueue.UnacknowledgedCanBeHandled | messaging/nats/nats.go:123-125 | a published message that is not acknowledged can still come to a handler, from any point of any run |
| NatsQueue.Callback | messaging/nats/nats.go:139-145 | an answer that arrives settles the message: acknowledged if the handler returned nil, otherwise ready again or already acknowledged |
| Reconnect.StepKeepsInv | messaging/rabbitmq/rabbitmq.go:55-128 | every step of the goroutine, Close and the network keeps the invariant on connections and fields |
| Reconnect.AtMostOneLive | messaging/rabbitmq/rabbitmq.go:55-128 | in every reachable state, also after Close, at most one connection is alive and open channels belong to it |
| Reconnect.FieldsFromOneDial | messaging/rabbitmq/rabbitmq.go:47-75 | in every reachable state conn and ch come from one dial, and are set exactly if New has returned a client |
| Reconnect.FailedConnectLeavesNothingOpen | messaging/rabbitmq/rabbitmq.go:55-69 | a connect that has failed leaves nothing open |
| Reconnect.SettledForever | messaging/rabbitmq/rabbitmq.go:77-128 | once Close has finished in a settled state, no connection is alive in any continuation |
| Reconnect.CloseIsFinalExactlyWhenSettled | messaging/rabbitmq/rabbitmq.go:116-128 | after Close, nothing can be alive again if and only if nothing is alive and the goroutine can only leave or faces a connection we closed |
| Reconnect.CloseWillBeFinalExactlyWhenCloseable | messaging/rabbitmq/rabbitmq.go:77-128 | told before the call: while no connection fails, every run that finishes Close leaves nothing alive for ever if and only if the goroutine can only leave, or the loop watches or is about to watch a live installed connection |
| Reconnect.CloseMustBeFinalExactlyWhenLeaving | messaging/rabbitmq/rabbitmq.go:77-128 | told before the call: whatever fails meanwhile, every run that finishes Close is final if and only if the goroutine can only leave |
| Reconnect.CloseableMeansCheckPasses | messaging/rabbitmq/rabbitmq.go:106-114 | a started client is closeable if and only if the goroutine can only leave or the health check passes |
| Reconnect.CloseOfHealthyConnectionIsFinal | messaging/rabbitmq/rabbitmq.go:77-128 | if Close starts while the loop watches a live connection that does not fail before Close closes it, nothing is alive afterwards or ever again |
| Reconnect.CloseDuringDialLeaks | messaging/rabbitmq/rabbitmq.go:71-73 | a reachable state in which Close and the goroutine are done and a connection is alive |
| Reconnect.LeavesUncalledExactlyTooLate | messaging/rabbitmq/rabbitmq.go:83-91 | without a Close the one step that ends the loop is turning to a connection whose failure has been reported already |
| Reconnect.GivesUpUncalledExactlyWhenTooLate | messaging/rabbitmq/rabbitmq.go:77-104 | in a whole run without a Close the loop has given up if and only if it turned to such a connection at some point |
| Reconnect.GivingUpUncalledHappens | messaging/rabbitmq/rabbitmq.go:71-91 | a reachable state in which the client has started, nobody called Close, and the goroutine is gone |
| ReconnectClient.Connect | messaging/rabbitmq/rabbitmq.go:55-75 | success installs conn and ch of this very dial; failure leaves both fields as they were and nothing open |
| ReconnectClient.Watch | messaging/rabbitmq/rabbitmq.go:79-91 | one look at the installed connection: the loop leaves, goes on to redial, or still watches without news, and after Close does not get past the signal |
| ReconnectClient.Redial | messaging/rabbitmq/rabbitmq.go:93-102 | the inner loop waits and connects once a round until it succeeds or is signalled, and after Close dials in no round that picks the signal |
| ReconnectClient.ReconnectLoop | messaging/rabbitmq/rabbitmq.go:77-104 | the loop returns exactly when the protocol's goroutine exits, otherwise stops only to watch a connection without news, and after Close does not get past a select that picks the signal |
| ReconnectClient.Close | messaging/rabbitmq/rabbitmq.go:117-128 | Close finishes, the connection it found installed is not alive, and it is final exactly when the state is settled |
| Text.ListRoundTrip | config/config.go:145-149 | a list survives join and read if and only if it is non-empty and its elements are comma-free and trimmed |
| Text.TrimInPlace | config/config.go:146-148 | the loop trims every element where it lies |
| Text.ParseIntOfFormat | config/config.go:124 | a written integer is read back if and only if it fits 64 bits |
| Text.UintAccepts | config/config.go:130 | the unsigned parser takes the digits of a number below 2^64 and nothing else |
| Text.IntAccepts | config/config.go:124 | the signed parser takes digits below 2^63, ignores a plus sign, and negates on a minus sign, then up to 2^63 |
| Text.DecimalOfValue | config/config.go:124-130 | digits without leading zeros are the decimal of their value, so a text has one value |
| Text.BoolTexts | config/config.go:118 | the twelve texts of a truth value, and no others |
| Text.TrimSpaceTakesSpace | config/config.go:147 | trimming takes white space from the two ends and nothing else |
| Text.JoinOfSplit | config/config.go:145 | splitting at commas loses nothing: the parts are comma-free and joined are the text |
| Config.SetField | config/config.go:96-155 | a field gets the value its text denotes for its kind; text that denotes none is an error and leaves all memory as it was |
| Config.LoadConcat | config/config.go:53-94 | loading two adjacent stretches of leaves is loading the first and, unless it failed, the second |
| Config.DefaultsStandIn | config/config.go:77-81 | loading is loading in the environment extended by the defaults of the unset variables |
| Config.LoadField | config/config.go:56-90 | one field, nested or not, changes its own cells as the fold over its leaves says and no others |
| Config.LoadStruct | config/config.go:53-94 | loading any nested struct is the left-to-right fold over its flat leaf list, with the same error |
| Config.Load | config/config.go:29-39 | Load is the fold over a zero struct, and the same with every default of an unset variable put into the environment |
| ConfigGuarantees.NestingIsTransparent | config/config.go:62-70 | wrapping fields in an exported struct changes no leaf |
| ConfigGuarantees.UnexportedIsPassedOver | config/config.go:58-60 | an unexported struct is passed over with all that is in it |
| ConfigGuarantees.OneLeaf | config/config.go:72-90 | one leaf written out: set beats default beats the required error, an optional unset leaf is kept, text that does not parse is an error |
| ConfigGuarantees.MissingIsReported | config/config.go:81-82 | the first leaf that is unset, without default and required is the error, and from it on nothing changes |
| ConfigGuarantees.LoadedAlone | config/config.go:29-39 | under an empty environment a leaf has its default, or its type's zero value if it has none |
| ConfigGuarantees.TextDenotes | config/config.go:96-155 | which texts denote a value of each kind, and which value |
| ConfigGuarantees.WrapsByModulus | config/config.go:123-134 | a number outside a field's range becomes the one in the range a whole number of moduli away |
| ConfigGuarantees.LeafByLeaf | config/config.go:77-90 | up to the first failure each leaf is set, defaulted or kept on its own account; from there on nothing is touched; the error is that leaf's |
| ConfigGuarantees.FieldRoundTrip | config/config.go:114-149 | a rendered value is read back if and only if it survives: in range for its width, a clean list, or a parser that inverts its renderer |
| ConfigGuarantees.StructRoundTrip | config/config.go:29-39 | for distinct, tagged, exported leaves, loading a rendered struct gives the same values without error if and only if every value survives |
| HttpClient.Fetch | database/httpclient/httpclient.go:38-99 | a client made with any settings, zero and negative ones included, retries after transport errors, 429 and 5xx and nothing else, closes exactly the responses with these statuses, once each, and returns one with another; its call takes no longer than all attempts and all waits |
| HttpClient.Client.Attempt | database/httpclient/httpclient.go:85-96 | one send; a retryable response is discarded and closed, any other is the result and stays open |
| HttpClient.Client.BeforeRetry | database/httpclient/httpclient.go:70-83 | a retry first rewinds the body, if it can, and then waits its backoff or stops with the context |
| HttpClient.Client.Do | database/httpclient/httpclient.go:67-99 | at most retries + 1 sends, each due and carrying the right body; a returned response is not retryable; each discarded response is closed once, in order; all time is attempts and waits |
| HttpClient.BackoffTotal | database/httpclient/httpclient.go:111-113 | the waits before k retries sum to delay * (2^k - 1) while the last one fits a Duration |
| HttpClient.WorstCaseTime | database/httpclient/httpclient.go:67-113 | any number of sends with their waits, the last cut short or not, add up to at most (retries + 1) * timeout + delay * (2^retries - 1) |
| HttpClient.EveryAttemptCarriesBody | database/httpclient/httpclient.go:71-77 | each send carries the original body if and only if GetBody replays it, or without GetBody there is none or no send but the last has read from or closed it |
| HttpClient.RetryCarriesRest | database/httpclient/httpclient.go:71-85 | without GetBody a retry carries exactly what the sends before it have not read, or a closed reader |
| Health.Registry.Check | health/health.go:74-112 | for every schedule and concurrent registrations: it returns exactly when every goroutine has signed off, each slot was written once, and the report is that of the snapshot |
| Health.FanOut.Step | health/health.go:88-99 | one step of one goroutine touches its own slot only and stores its checker's result once |
| Health.AllOk | health/health.go:103-109 | the early-leaving loop decides whether every result is ok |
| Health.ReadyMeaning | health/health.go:72-73 | all results are ok if and only if every checker of the snapshot returned nil |
| Health.ScheduleIndependent | health/health.go:74-112 | given what the checkers return, any two runs report the same results up to order, one for each registered name |
| Postgres.WithTx | database/postgres/postgres.go:78-97 | a begun transaction ends in one Commit if the function returned nil and in one Rollback if it failed or panicked, which is what the caller sees; success means begun, nil and committed, and then all writes are made; its connection goes back |
| Postgres.ApplyAllWrites | database/postgres/postgres.go:78-97 | after a transaction's writes each written key has its last written value and every other key its old one |
| Postgres.RunAll | database/postgres/postgres.go:78-97 | over any sequence of calls each begun transaction is ended once, no connection leaks, and the data is the fold of the effective calls |
| Postgres.FailedCallsLeaveNoTrace | database/postgres/postgres.go:74-77 | the final data is as if only the calls whose commit took effect had run |
| Claims.StringSlice | auth/claims.go:47-62 | the loop collects an array's strings in order; a single string is a list of one; anything else is nil |
| Claims.AllStrings | auth/claims.go:49-56 | an array of strings reads as these strings in order |
| Claims.OthersPassedOver | auth/claims.go:49-56 | anything else in an array is passed over |
| Claims.NestedStringSlice | auth/claims.go:67-104 | the loop reads the claim at the end of the path, nil if an object is missing on the way |
| Claims.NestedSliceComposes | auth/claims.go:64-104 | reading p ++ q is reading q in the object at p, nil if p leads to no object |
| Claims.NestedSliceOfOneKey | auth/claims.go:47-104 | a path of one key is the flat claim |
| Claims.NestedSliceStepsIn | auth/claims.go:72-82 | a longer path continues in the object at its first key, and is nil if there is none |
| Claims.AudienceContains | auth/introspection_validator.go:43-55 | a value is an audience if and only if it is in the "aud" claim read as a list |
| Claims.HasAnyRole | auth/roles.go:40-55 | true if and only if nothing is wanted or some wanted role is held |
| Claims.DefaultRoles | auth/roles.go:15-29 | realm_access.roles if it has any, else roles, else groups, else none |
| AuthChain.BearerRoundTrip | auth/middleware.go:85-96 | a header made from a token gives it back if and only if the token is non-empty and trimmed; without the prefix there is none |
| AuthChain.AuthenticateReads | auth/middleware.go:77-96 | the validator gets what follows "Bearer ", trimmed; without the prefix or with nothing after it the token is missing |
| AuthChain.Context.Next | auth/middleware.go:17-64 | Gin's loop, nested to any depth, ends with the chain over: an element stopped it or none is left; the index stays within an int8 |
| AuthChain.Context.Run | auth/middleware.go:17-64 | one element stores claims, aborts with 401 or 403, or goes on by itself, as its kind demands |
| AuthChain.Serve | auth/middleware.go:17-75 | elements run in order and once each; an element runs if and only if every earlier one lets the request through, and the first that does not writes the only reply |
| AuthChain.ClaimsAreLatest | auth/middleware.go:24-40 | the claims an element finds are those of the latest element before it that authenticated, RequiredAuth or OptionalAuth |
| AuthChain.GuardedHandler | auth/middleware.go:17-64 | RequiredAuth, a role test and a handler written out: 401 with the validator's error, 403, or through |
| AuthChain.RequiredAuthGivesClaims | auth/middleware.go:44-64 | past a RequiredAuth a role test always finds claims and can only answer 403 |
| AuthChain.RolesAloneRefuseAll | auth/middleware.go:46-54 | a role test with no authenticating element before it answers 401 to every request |

## Left out

- RateLimit.StepKeepsInv: does not model a command executed twice by go-redis's own retries; each repetition would be one more INCR in the log.
- RateLimitBursts.BurstBound: counts calls by when their INCR executed, in a closed interval of whole seconds; clock skew between replicas is not modelled.
- RedisLock.StepKeepsInv: lifetimes are whole ticks, zero meaning none; a negative lifetime (go-redis's KeepTTL) is not modelled, and the "lock:" prefix is dropped.
- Queue.StepKeepsInv: the ready messages are a set, so the order of redelivery is not modelled, nor are limits on redelivery, message expiry or dead-letter queues.
- RabbitQueue.Consume: declaring and binding the queue only decides its durability; their errors, and a queue that exists with other parameters, are not modelled. A queue that is not durable has one session at a time, so two Consume calls sharing one connection and one such queue are not modelled; successive queues under an empty name count as one.
- NatsQueue.RunRefines: the consumer is durable, as its name parameter asks; JetStream's default delivery settings are assumed, with no limit on deliveries; callbacks of different deliveries may overlap here, which allows more runs than the library does.
- ReconnectClient.Close: a second call panics in the source (it closes a closed channel) and is excluded by a precondition.
- ReconnectClient.ReconnectLoop: the delay is a step that may come at any time; its length is not modelled.
- Config.SetField: reflection itself is not modelled, nor a TextUnmarshaler that changes its value and then fails, nor characters an environment cannot hold (NUL).
- Config.Load: a type argument that is not a struct is a type error here; the source reports it at run time. MustLoad exits the process and is left out.
- HttpClient.Client.Do: opening connections, redirects, tracing headers and the concurrent writer of a response are inside the answer parameter; an error of Close or of draining is ignored, as in the source.
- Health.Registry.Check: the per-check timeout is only a field, since what a checker does with its context is its own; that every checker returns, and does not panic, is what makes all goroutines sign off.
- Postgres.WithTx: the function's statements are a list of writes; reads, isolation between transactions and the error of Rollback (ignored by the source) are not modelled.
- AuthChain.Context.Run: a handler that aborts or calls Next itself is not modelled, nor the error texts and headers of the replies.
- Claims.StringSlice: nil and an empty list are told apart as None and Some([]); typed claim fields, `String` and `GenericClaimRolesExtractor` (single lookups) are left out.
- Publishers, core NATS publish and subscribe, EnsureStream, the Kafka producer, JSON get and set in the cache: one library call each.
- Connection setup, pings and health probes of the database, broker and cache clients.
- JWT signatures, JWKS refresh, OIDC discovery and the introspection request: foreign cryptography and network.
- errors, validation, logging, observability, server, migrate, clickhouse, auth configuration, config presets and the health endpoints: wiring, tables and delegation that would only add easy members.
