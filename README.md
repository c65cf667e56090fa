# Redis command layer of the Spectra Studio gateway, in Dafny

This project models the Redis part of the desktop gateway's Rust back end
(`src-tauri/src/lib.rs`). That part has three pieces:

- the `AppState` slot, which holds at most one `redis::Client`;
- `connect_redis`, which builds a `redis://` URL, opens a client, connects, sends `PING`, and
  only then stores the client in the slot;
- the four commands that read the slot: `redis_get_keys`, `redis_get_value`,
  `redis_set_value` and `redis_del_key`.

`redis_get_value` first asks the server for the key's `TYPE`. The tag picks one read
command. The reply comes back as raw text, a JSON array or a JSON object. A tag with no
branch gives the success value `Unsupported type: <tag>`.

Layout, one module per concern:

- `wrappers.dfy`: `Option` and `Result` (errors are text, as in the Rust code).
- `decimal.dfy`: decimal text of a number, used for the port, and its inverse.
- `redis_url.dfy`: the URL builder, plus a reader that inverts it. The reader shows what the
  URL carries and where the unescaped password breaks it.
- `json.dfy`: the compact JSON text `serde_json::to_string` writes for `Vec<String>` and
  `HashMap<String, String>`, including its escaping of control characters. A strict decoder
  for that form turns "the result is this JSON" into round-trip lemmas.
- `commands.dfy`: each command as a function of the driver, the slot and the event log. The
  properties are lemmas about these functions.
- `gateway.dfy`: the imperative model. `AppState` is a class whose `redisClient` field is
  overwritten in place by `ConnectRedis`. `Network` stands for the redis crate and the
  servers, and records every connection opened and every command sent. The command methods
  are proved to match the functions in `commands.dfy`.

The redis crate and the network are an abstract driver (`Commands.Driver`):

- `Client::open` may refuse a URL.
- Opening a connection may fail.
- Each `query_async` call answers with a decoded value of the requested Rust type, or with
  an error text.

Each answer may depend on every event sent before it, so a server whose data changes between
`TYPE` and `GET` is covered. What Redis itself stores is not modelled.

The event log is a real field of `Network`, not a ghost one, because the answers read it.
`AppState` never reads the log.

The code has no branch for sorted sets, so a `zset` tag gives `Unsupported type: zset`.
The Redis layer has exactly these five commands: connect, list keys, read a value, set a
string value and delete a key.

## Model

| member | source | states |
|---|---|---|
| Decimal.NatToText | src-tauri/src/lib.rs:25-30 | the port written by `format!`: at least one character, all digits, no leading zero unless the port is 0 |
| Decimal.ParseNatOfText | src-tauri/src/lib.rs:25-30 | reading the written port back gives the port |
| Decimal.NatToTextInjective | src-tauri/src/lib.rs:25-30 | two different ports never give the same text |
| RedisUrl.ConnectionUrlShape | src-tauri/src/lib.rs:23-31 | no password, or an empty one: exactly `redis://host:port/`; a non-empty password: exactly `redis://:pwd@host:port/`, with the password copied verbatim |
| RedisUrl.ParseConnectionUrl | src-tauri/src/lib.rs:23-31 | if the host has none of `/ ? # @ :` and the password none of `/ ? #`, reading the URL back gives exactly the host, the port and the password; an empty password reads back as none |
| RedisUrl.DelimiterInPasswordIsLost | src-tauri/src/lib.rs:27 | the password is inserted unescaped: for every host and port, a password containing `/`, `?` or `#` yields a URL that no longer reads back as any `[:password@]host:port/` target |
| Json.ParseStringOfQuote | src-tauri/src/lib.rs:77 | a string written as a JSON literal with serde_json's escapes reads back as the same text, and what follows it is left alone |
| Json.ArrayRoundTrip | src-tauri/src/lib.rs:77 | decoding the JSON array written for a list of strings gives the same list, in the same order |
| Json.ObjectRoundTrip | src-tauri/src/lib.rs:85 | decoding the JSON object written for a list of members gives the same members, in the same order |
| Json.EnumeratesSize | src-tauri/src/lib.rs:84-85 | a member list that lists each field of a map once, with its value, has exactly as many members as the map has fields |
| Gateway.HashMapEntries | src-tauri/src/lib.rs:84-85 | walking the `HashMap` gives each field exactly once, with its value; the order is left open |
| Commands.NotConnectedGuard | src-tauri/src/lib.rs:48-51 | with the slot empty, keys, get, set and del each return `Err("Not connected")` and send nothing; the guards are at lines 48-51, 61-64, 95-98 and 108-111 |
| Commands.ConnectStoresOnlyOnSuccess | src-tauri/src/lib.rs:33-43 | connect succeeds if and only if `Client::open`, the connection and `PING` all succeed; it then returns `Connected to host:port` and the slot holds the new client; any failure returns the failing step's error text unchanged, leaves the slot as it was and stops there: no connection after a failed `Client::open`, no `PING` after a failed connection |
| Commands.ConnectOverwrites | src-tauri/src/lib.rs:41 | the old slot never affects connect's result or what it sends; on success the new client replaces whatever was there |
| Commands.KindTable | src-tauri/src/lib.rs:70-90 | `string`, `list`, `set` and `hash` select `GET key`, `LRANGE key 0 -1`, `SMEMBERS key` and `HGETALL key`; every other tag, `zset` included, selects no command |
| Commands.GetValueCommandOrder | src-tauri/src/lib.rs:66-86 | a get opens one connection; `TYPE key` is sent if and only if that connection succeeded; then at most one more command; the third event happens if and only if `TYPE` succeeded with a readable tag, and it is that tag's read command; every event goes to the slot's client |
| Commands.UnsupportedFallback | src-tauri/src/lib.rs:87-89 | a tag with no read command gives the success value `Unsupported type: <tag>`, and nothing is sent after `TYPE` |
| Commands.RenderedValueDecodes | src-tauri/src/lib.rs:71-86 | rendered text reads back as what was read: a string unchanged, members as the same JSON array, fields as a JSON object listing each field once |
| Commands.GetValueOutput | src-tauri/src/lib.rs:60-91 | what get returns, tag by tag, in terms of the server's replies. A string's reply is returned unchanged. A list or set's members come back in reply order as a decodable JSON array. A hash comes back as a JSON object that decodes to exactly its fields. An unknown tag gives the fallback text. Every connection, `TYPE` or read error is passed on unchanged |
| Commands.SingleCommandIssued | src-tauri/src/lib.rs:47-115 | with a client in the slot, keys, set and del each open one connection and then send exactly `KEYS pattern`, `SET key value` or `DEL key`, with no retry; keys come back as the server listed them; connection and server errors are passed on unchanged |
| Gateway.AppState.constructor | src-tauri/src/lib.rs:198-200 | the slot starts empty |
| Gateway.AppState.ConnectRedis | src-tauri/src/lib.rs:16-44 | result, new slot and events sent equal `Commands.Connect`; the slot is unchanged on error and holds the client for the built URL on success |
| Gateway.AppState.RedisGetKeys | src-tauri/src/lib.rs:46-57 | result and events sent equal `Commands.GetKeys`; an empty slot returns "Not connected" and sends nothing |
| Gateway.AppState.RedisGetValue | src-tauri/src/lib.rs:59-91 | events sent equal `Commands.GetValue`, and the text returned renders that function's value (errors unchanged); an empty slot returns "Not connected" and sends nothing |
| Gateway.AppState.RedisSetValue | src-tauri/src/lib.rs:93-104 | result and events sent equal `Commands.SetValue`; an empty slot returns "Not connected" and sends nothing |
| Gateway.AppState.RedisDelKey | src-tauri/src/lib.rs:106-115 | result and events sent equal `Commands.DelKey`; an empty slot returns "Not connected" and sends nothing |
| Gateway.ReadConnectList | src-tauri/src/lib.rs:41-51 | from a fresh state, a read is refused; after a failed connect, key listing is still refused; after a successful connect, the next connection goes to the client that connect stored |

## Left out

- Window, tray and menu setup in `run()` (src-tauri/src/lib.rs:196-322): platform and UI code, with floating-point sizing and Win32 calls.
- `update_click_region` and `get_screen_work_area` (src-tauri/src/lib.rs:124-193): window geometry on `f64` scale factors, with unsafe Win32 calls.
- `greet` (src-tauri/src/lib.rs:117-122): it reads the system clock.
- The redis crate and the network: URL validation, connecting, the RESP protocol and decoding replies into Rust types are all the abstract `Driver`. Server, transport and decoding errors come from it as text; their exact wording is not modelled.
- Redis's own data semantics, such as what `SET` does to a later `GET`. The driver's answers depend only on the event log.
- `Mutex` locking and `async` scheduling: the commands are modelled one at a time. In the source the lock is held only to copy or assign the slot, so a command keeps the client it read even if another command reconnects at the same time. That interleaving is not modelled.
- The `redis::Client` type: it is modelled as the URL it was opened with.
- Byte strings: keys, values and replies are Unicode text. The crate's refusal of replies that are not valid UTF-8 falls under the driver's errors.
- The error path of `serde_json::to_string` (lines 77, 81 and 85): it cannot fail for strings and string maps, so it is not modelled.
- Json decoder: it reads only the compact form serde_json writes, with no whitespace between tokens and no `\u` surrogate pairs. It is a partner for the encoder, not a general JSON parser.
- RedisUrl.ParseConnectionUrl: the reader it relies on, RedisUrl.ParseUrl, follows the URL grammar only as far as the authority split (first `/`, `?` or `#`; last `@`; last `:`) and keeps `%XX` sequences literally. The redis crate percent-decodes the password instead, and the builder (lib.rs:27) does not percent-encode it. So for a password such as `p%41ss` the round trip shows that the URL carries the text verbatim, but the client would authenticate with `pAss`, not the password the caller passed. The model does not capture this decoding. Two more differences from the crate's `url` parsing are not modelled either. It removes every tab, line feed and carriage return from the input, so a password `a<TAB>b` authenticates as `ab`. It refuses hosts containing, among others, a space, NUL, `< > ^ | [ ] \`, reads a host starting with `[` as an IPv6 address, and percent-encodes other control and non-ASCII characters, so `Client::open` fails on, or changes, some hosts that `PlainHost` allows; the driver's `open` stands for that outcome.
- RedisUrl.DelimiterInPasswordIsLost: its `None` means only that the URL is not the intended `[:password@]host:port/` target. ParseUrl refuses any text after the single `/` and a missing port, whereas the crate's URL parsing accepts a path, a query (`?`) and a fragment (`#`) and defaults the port to 6379. So the redis crate either refuses such a URL or reads another target from it: for the password `p@ss#word` the URL `redis://:p@ss#word@host:6379/` names password `p`, host `ss` and port 6379, and the connection goes to `ss` while `connect_redis` still reports `Connected to host:6379`. Which server the crate then reaches is not modelled.
