# Scalable-Chat relay and backoff core, in Dafny

This project models the two sequential control loops of the chat service.

The first is the retry-with-backoff decorator `backoff(start_sleep_time, factor,
border_sleep_time)`. It gates start-up on Redis and Cassandra being reachable.
It re-invokes the wrapped call after each connection error, and the sleep
follows an exponential schedule whose cap, once reached, is sticky.

The second is the pair of per-connection relays of the websocket endpoint:
- `chat_producer` receives a client frame, validates it, enriches it with the
  conversation, the sender and the clock, writes it to Cassandra, and then
  publishes it on the conversation's Redis channel.
- `chat_consumer` forwards every non-blank broker message to the client, and
  stops and closes the subscription when a send fails.

Files:
- `util.dfy` (module `Util`): `Option` and `FirstWhere`, the index at which a
  loop that absorbs inputs until one ends it actually stops.
- `backoff.dfy` (module `Backoff`): the delay state machine `(n, t)`, its
  closed form, and the retry loop as the method `Retry`.
- `uuids.dfy` (module `Uuids`): `str(uuid)`, the broker channel name, and the
  proof that distinct conversations get distinct channels.
- `chat.dfy` (module `Chat`): the message records, the Cassandra row, the
  effect log, and the loops `Producer` and `Consumer`.

How the outside world is represented:
- Backoff's sleeps are in seconds, as Dafny `real`, with no floating-point rounding. The chat clock, `datetime.now()`, is an abstract integer reading (`Chat.Timestamp`).
- The wrapped call of `backoff` is a finite script of `Attempt`s: raise,
  return, or return a generator that may raise while it is drained.
- The sleeps and calls of `backoff` become a trace of `Call` and `Sleep(t)`.
- The websocket, Redis and Cassandra become input sequences (`Arrival`,
  `Delivery`) and an output log of `Effect`s: `Subscribe`, `Save`, `Publish`,
  `Send` and `Close`.
- `datetime.now()` is a timestamp carried by each `Arrival`.
- Pydantic validation and `json.loads` are abstracted to the outcome they
  give for a frame.

Behaviour of the code that a reader might not expect, which the model keeps:
- The Cassandra insert binds `chat_id`, `created_at`, `user_from` and `message`,
  but not `event` (chat/main.py:37-41). So a stored row carries the message
  text but not its event (`Chat.RelayedFrame`).
- Pydantic's `str` fields accept the empty string. So a frame with empty
  `event` or `message` is relayed, not rejected.
- A frame that lacks the `event` or `message` key raises `KeyError` at the
  dictionary lookup (chat/main.py:77-78). That exception is not caught, so the
  producer crashes instead of closing with code 1008.
- When `json.loads` fails in the consumer (chat/main.py:56), the exception
  skips `channel.close()`. Only the send-failure exit closes the channel.
- `time.sleep` raises `ValueError` for a negative length (chat/waiters/backoff.py:52).
  It runs in the handler, outside the `try`, so with a negative argument the
  decorator gives up at the first sleep below zero (`Backoff.NegativeStartRefused`).
- A store or broker exception during live relaying is not retried. It ends
  the producer, and a failed publish after a successful write leaves a stored
  message that is never published (`Chat.Stranded`).

## Model

| member | source | states |
|---|---|---|
| `Backoff.OnConnectionError` | chat/waiters/backoff.py:46-52 | the sleep chosen on a caught connection error never exceeds `border_sleep_time`, and `n` grows by at most one |
| `Backoff.DelayBounded` | chat/waiters/backoff.py:47-50 | every sleep of the retry loop is at most `border_sleep_time` |
| `Backoff.FirstDelay` | chat/waiters/backoff.py:39-47 | the first sleep is `start_sleep_time` and `n` becomes 1, when `start_sleep_time < border_sleep_time` |
| `Backoff.CounterAdvance` | chat/waiters/backoff.py:47-51 | on each caught error `n` advances by exactly one if the sleep is below the border and stays unchanged if the sleep equals it |
| `Backoff.StickyCap` | chat/waiters/backoff.py:47-51 | once a sleep equals the border, every later sleep equals it |
| `Backoff.ClosedForm` | chat/waiters/backoff.py:28-51 | for `factor >= 1` and `start_sleep_time >= 0` the k-th sleep is `min(start_sleep_time * factor^k, border_sleep_time)`, the docstring's formula |
| `Backoff.DefaultSchedule` | chat/waiters/backoff.py:19-23 | with the default arguments the k-th sleep is `0.1 * 2^k` for k < 7 and 10 from the eighth failure on |
| `Backoff.DefaultDelays` | chat/waiters/backoff.py:19-23 | the default sleeps are 0.1, 0.2, 0.4, 0.8, 1.6, 3.2, 6.4, then 10 at every later failure |
| `Backoff.ScheduleShape` | chat/waiters/backoff.py:41-52 | in the trace of retried attempts calls and sleeps alternate, exactly one sleep after each call, the j-th sleep being the j-th delay |
| `Backoff.Retry` | chat/waiters/backoff.py:38-54 | the loop calls until the first attempt that does not raise a connection error, or the first whose computed sleep is negative. It returns that call's value, with a generator drained to a list, or lets its non-connection error propagate with no further sleep. A negative sleep ends it with `ValueError` and no `Sleep` entry. It sleeps the scheduled delay after each earlier attempt, and is still retrying when every attempt failed with a connection error |
| `Backoff.SleepNonNegative` | chat/waiters/backoff.py:47-52 | with non-negative `start_sleep_time`, `factor` and `border_sleep_time` every sleep is non-negative, so `time.sleep` never refuses one |
| `Backoff.NegativeStartRefused` | chat/waiters/backoff.py:40-52 | a negative `start_sleep_time` below the border makes the first connection error end the loop after one call, its sleep being refused |
| `Backoff.NoAttemptLimit` | chat/waiters/backoff.py:41-52 | with non-negative arguments, after any finite number of connection errors the next attempt is still made, and a success then ends the loop |
| `Uuids.ParseChannelName` | chat/main.py:50 | the channel name `str(chat_id)` has 36 characters with hyphens at 8, 13, 18 and 23, and parsing it gives back the UUID |
| `Uuids.ChannelNameInjective` | chat/main.py:93 | two conversations share a broker channel exactly when they are the same conversation |
| `Chat.RowOf` | chat/main.py:37-41 | the stored row carries the message's `chat_id`, `created_at`, `user_from` and text |
| `Chat.SameRow` | chat/main.py:37-41 | two messages are stored as the same row exactly when they agree on those four columns; the `event` is not stored |
| `Chat.Stranded` | chat/main.py:92-93 | the frame that ends the producer leaves at most one effect, a store write. It leaves exactly that message's row when the frame was valid, the write succeeded and the publish then failed, and nothing otherwise |
| `Chat.Producer` | chat/main.py:66-93 | the producer's log holds each frame before the first non-relayed one as its store write then its publish on `str(chat_id)`, and at most a stranded write after them. It ends on a disconnect, with close code 1008 (the only code it raises) on a validation error, with the uncaught error otherwise, or is still awaiting a frame |
| `Chat.RelayShape` | chat/main.py:92-93 | each relayed message yields exactly two effects in message order, its store write followed by its publish |
| `Chat.SaveBeforePublish` | chat/main.py:92-93 | in a producer log every publish is immediately preceded by the store write of the same message and goes to the conversation's channel |
| `Chat.OnePerMessage` | chat/main.py:73-93 | no deduplication: a message is published as many times as it was relayed, and each of its store rows is written as many times |
| `Chat.RelayedFrame` | chat/main.py:86-93 | the j-th relayed frame is stored with its message text, the conversation, its clock reading and the sender but without its event, then published with event, message, `chat_id`, `created_at` and `user_from` |
| `Chat.StripEmptyIffBlank` | chat/main.py:54 | `not data.strip()` holds exactly for empty or all-whitespace data |
| `Chat.Consumer` | chat/main.py:44-63 | the consumer first subscribes to `str(chat_id)`, then sends the data of every non-skipped message in arrival order until the first that halts it, and closes the channel exactly when a send failed. A decoding failure ends it without a close |
| `Chat.ForwardedAppend` | chat/main.py:52-58 | forwarding distributes over concatenation of the broker stream, so arrival order is kept |
| `Chat.ForwardedAt` | chat/main.py:53-58 | each delivery contributes, in its place, exactly its data, or nothing when it is absent or blank |
| `Chat.ForwardedNotBlank` | chat/main.py:54-58 | nothing empty or whitespace-only is ever sent to the client |

## Left out

- `websocket_endpoint` (chat/main.py:108-125): it creates the two relay tasks and awaits them one after the other. That is asyncio scheduling, and there is no cancellation of the sibling relay to model. Each relay is modelled on its own.
- `startup` and `shutdown` (chat/main.py:128-164): connection-pool and cluster set-up and tear-down, which are I/O.
- `get_user_by_token` (chat/main.py:96-105): a stub that returns a random UUID. The sender is a parameter of the producer.
- chat/waiters/wait_for_redis.py and chat/waiters/wait_for_cassandra.py: single library pings wrapped in `backoff()` with its defaults. Those defaults are `Backoff.Default`.
- chat/config.py: environment-variable reads.
- Pydantic's coercion rules, `json.loads`, CQL and the Redis pub/sub protocol: a frame's fields arrive already classified as absent, accepted or rejected. Decodability and send failure are flags on a broker delivery.
- `Chat.Consumer`: `ws.send_json(json.loads(data))` re-serialises the decoded JSON. The model records the broker data itself as what is sent. Three exits that skip `channel.close()` are also not modelled, because their exceptions are not caught: a failure of `channel.subscribe` (chat/main.py:50), a failure of `channel.get_message` (chat/main.py:53), and a `send_json` failure other than `RuntimeError` (chat/main.py:58-63). The model's consumer ends only by a failed send (with the close) or a decoding failure (without it).
- `Backoff.Error`: exception subclasses of the two connection errors are not distinguished from them. Every other exception is one `Other` kind.
- `time.sleep` and wall-clock time: a sleep is a trace entry, not a delay.
- `Backoff.Retry`: Python floats are modelled as exact reals. So the model does not capture the rounding of `0.1 * 2 ** n`, nor the `OverflowError` that `factor ** n` in `start_sleep_time * factor ** n` (chat/waiters/backoff.py:47) raises when it is out of float range: a float power that overflows, or an int power too large for a float multiplied by a float `start_sleep_time`. A product that overflows becomes `inf`, which line 48 caps to the border, as the model does. The power can overflow whether or not the exact value would have reached the border: with `start_sleep_time = 1e-300`, `factor = 10**10` and `border_sleep_time = 10`, the sleep at `n = 30` is about 1, so `n` becomes 31, and the next connection error overflows. The model instead caps that sleep at 10. Nor does it capture the `OverflowError` of `time.sleep` (chat/waiters/backoff.py:52, outside the `try`) for a length beyond its range of about 9.2e9 seconds, e.g. `border_sleep_time = 1e10` at the first capped sleep.
- `Backoff.ClosedForm`: it is stated only for `factor >= 1` and `start_sleep_time >= 0`, where the docstring's formula holds. For other parameters, the other lemmas describe the state machine.
- The loops run forever on an endless input. The model consumes a finite input and reports `StillRetrying`, `AwaitingFrame` or `Listening` when that input runs out.
