/**
 * What each Redis command of the gateway does, as functions of the driver (the redis crate
 * and the servers behind it), the connection slot and the log of everything issued so far.
 * The `AppState` methods in module Gateway are proved to behave exactly like these.
 */
module Commands {
  import opened Wrappers
  import Json
  import RedisUrl

  /** The error every command other than connect returns while the slot is empty. */
  const NOT_CONNECTED := "Not connected"

  /** A `redis::Client`: what `Client::open` keeps of the URL it accepted. */
  datatype Client = Client(url: string)

  /** What the gateway does to the outside world: open a connection, or send one command. */
  datatype Event = Dial(client: Client) | Send(client: Client, command: seq<string>)

  /**
   * The redis crate and the servers it reaches. `open` is `Client::open` (an error text when
   * the URL is refused). Every other entry answers one step, given the log of all events
   * before it (so a server's state may change from one step to the next): `dial` is
   * `get_multiplexed_async_connection`, and `text`, `list`, `fields` and `unit` are
   * `query_async` decoding the reply as `String`, `Vec<String>`, `HashMap<String, String>`
   * and `()`, any error (server, transport or decoding) given as its text.
   */
  datatype Driver = Driver(
    open: string -> Option<string>,
    dial: (seq<Event>, Client) -> Option<string>,
    text: (seq<Event>, Client, seq<string>) -> Result<string>,
    list: (seq<Event>, Client, seq<string>) -> Result<seq<string>>,
    fields: (seq<Event>, Client, seq<string>) -> Result<map<string, string>>,
    unit: (seq<Event>, Client, seq<string>) -> Option<string>)

  /** The outcome of a command and the log once it has finished. */
  datatype Run<T> = Run(result: Result<T>, log: seq<Event>)

  /** The outcome of `connect_redis`, which also decides the new slot. */
  datatype ConnectRun = ConnectRun(result: Result<string>, slot: Option<Client>, log: seq<Event>)

  const PING: seq<string> := ["PING"]

  function ConnectedMessage(host: string, port: RedisUrl.Port): string {
    "Connected to " + host + ":" + RedisUrl.PortText(port)
  }

  /** `connect_redis`: open a client for the URL, connect, `PING`, and only then fill the slot. */
  function Connect(d: Driver, slot: Option<Client>, log: seq<Event>,
                   host: string, port: RedisUrl.Port, password: Option<string>): ConnectRun
  {
    var url := RedisUrl.ConnectionUrl(host, port, password);
    match d.open(url)
    case Some(e) => ConnectRun(Err(e), slot, log)
    case None =>
      var c := Client(url);
      var log1 := log + [Dial(c)];
      match d.dial(log, c)
      case Some(e) => ConnectRun(Err(e), slot, log1)
      case None =>
        var log2 := log1 + [Send(c, PING)];
        match d.unit(log1, c, PING)
        case Some(e) => ConnectRun(Err(e), slot, log2)
        case None => ConnectRun(Ok(ConnectedMessage(host, port)), Some(c), log2)
  }

  /** The command `redis_get_keys` sends. */
  function KeysCommand(pattern: string): seq<string> {
    ["KEYS", pattern]
  }

  /** The command `redis_set_value` sends. */
  function SetCommand(key: string, value: string): seq<string> {
    ["SET", key, value]
  }

  /** The command `redis_del_key` sends. */
  function DelCommand(key: string): seq<string> {
    ["DEL", key]
  }

  /** `redis_get_keys`: `KEYS pattern`, the reply list as it comes. */
  function GetKeys(d: Driver, slot: Option<Client>, log: seq<Event>, pattern: string): Run<seq<string>> {
    match slot
    case None => Run(Err(NOT_CONNECTED), log)
    case Some(c) =>
      var log1 := log + [Dial(c)];
      match d.dial(log, c)
      case Some(e) => Run(Err(e), log1)
      case None =>
        var cmd := KeysCommand(pattern);
        Run(d.list(log1, c, cmd), log1 + [Send(c, cmd)])
  }

  /** The type tags `redis_get_value` can read; every other tag is `OtherKind`. */
  datatype Kind = StringKind | ListKind | SetKind | HashKind | OtherKind

  function KindOf(tag: string): Kind {
    if tag == "string" then StringKind
    else if tag == "list" then ListKind
    else if tag == "set" then SetKind
    else if tag == "hash" then HashKind
    else OtherKind
  }

  function TypeCommand(key: string): seq<string> {
    ["TYPE", key]
  }

  /** The one read command for a readable tag. */
  function ReadCommand(kind: Kind, key: string): seq<string>
    requires kind != OtherKind
  {
    match kind
    case StringKind => ["GET", key]
    case ListKind => ["LRANGE", key, "0", "-1"]
    case SetKind => ["SMEMBERS", key]
    case HashKind => ["HGETALL", key]
  }

  /** What `redis_get_value` read, before it is written out as text. */
  datatype Value = Text(text: string) | Members(members: seq<string>)
                 | Fields(fields: map<string, string>) | Unsupported(tag: string)

  /** The reply to the read command, decoded as the command's kind demands. */
  function ReadReply(d: Driver, log: seq<Event>, c: Client, kind: Kind, key: string): Result<Value>
    requires kind != OtherKind
  {
    var cmd := ReadCommand(kind, key);
    match kind
    case StringKind =>
      (match d.text(log, c, cmd) case Err(e) => Err(e) case Ok(s) => Ok(Text(s)))
    case ListKind =>
      (match d.list(log, c, cmd) case Err(e) => Err(e) case Ok(xs) => Ok(Members(xs)))
    case SetKind =>
      (match d.list(log, c, cmd) case Err(e) => Err(e) case Ok(xs) => Ok(Members(xs)))
    case HashKind =>
      (match d.fields(log, c, cmd) case Err(e) => Err(e) case Ok(m) => Ok(Fields(m)))
  }

  /** `redis_get_value`: `TYPE key`, then the one read command the tag selects, if any. */
  function GetValue(d: Driver, slot: Option<Client>, log: seq<Event>, key: string): Run<Value> {
    match slot
    case None => Run(Err(NOT_CONNECTED), log)
    case Some(c) =>
      var log1 := log + [Dial(c)];
      match d.dial(log, c)
      case Some(e) => Run(Err(e), log1)
      case None =>
        var log2 := log1 + [Send(c, TypeCommand(key))];
        match d.text(log1, c, TypeCommand(key))
        case Err(e) => Run(Err(e), log2)
        case Ok(tag) =>
          var kind := KindOf(tag);
          if kind == OtherKind then Run(Ok(Unsupported(tag)), log2)
          else Run(ReadReply(d, log2, c, kind, key), log2 + [Send(c, ReadCommand(kind, key))])
  }

  /**
   * How a value read is handed back as text: a string as it is, members as a JSON array in
   * reply order, fields as a JSON object listing each field once in some order (that of the
   * `HashMap`, which nothing fixes), anything else as `Unsupported type: <tag>`.
   */
  ghost predicate RendersAs(v: Value, s: string) {
    match v
    case Text(t) => s == t
    case Members(xs) => s == Json.EncodeStringArray(xs)
    case Fields(m) => exists es :: Json.Enumerates(es, m) && s == Json.EncodeStringObject(es)
    case Unsupported(tag) => s == "Unsupported type: " + tag
  }

  /** The text result `out` hands back the outcome `r`: errors unchanged, values rendered. */
  ghost predicate Delivers(r: Result<Value>, out: Result<string>) {
    match r
    case Err(e) => out == Err(e)
    case Ok(v) => out.Ok? && RendersAs(v, out.value)
  }

  /** `redis_set_value`: `SET key value`. */
  function SetValue(d: Driver, slot: Option<Client>, log: seq<Event>, key: string, value: string): Run<()> {
    match slot
    case None => Run(Err(NOT_CONNECTED), log)
    case Some(c) =>
      var log1 := log + [Dial(c)];
      match d.dial(log, c)
      case Some(e) => Run(Err(e), log1)
      case None =>
        var cmd := SetCommand(key, value);
        var log2 := log1 + [Send(c, cmd)];
        match d.unit(log1, c, cmd)
        case Some(e) => Run(Err(e), log2)
        case None => Run(Ok(()), log2)
  }

  /** `redis_del_key`: `DEL key`. */
  function DelKey(d: Driver, slot: Option<Client>, log: seq<Event>, key: string): Run<()> {
    match slot
    case None => Run(Err(NOT_CONNECTED), log)
    case Some(c) =>
      var log1 := log + [Dial(c)];
      match d.dial(log, c)
      case Some(e) => Run(Err(e), log1)
      case None =>
        var cmd := DelCommand(key);
        var log2 := log1 + [Send(c, cmd)];
        match d.unit(log1, c, cmd)
        case Some(e) => Run(Err(e), log2)
        case None => Run(Ok(()), log2)
  }

  // ---------------------------------------------------------------------------------------
  // Properties

  /** With the slot empty, every command but connect fails with "Not connected" and issues nothing. */
  lemma NotConnectedGuard(d: Driver, log: seq<Event>, pattern: string, key: string, value: string)
    ensures GetKeys(d, None, log, pattern) == Run(Err(NOT_CONNECTED), log)
    ensures GetValue(d, None, log, key) == Run(Err(NOT_CONNECTED), log)
    ensures SetValue(d, None, log, key, value) == Run(Err(NOT_CONNECTED), log)
    ensures DelKey(d, None, log, key) == Run(Err(NOT_CONNECTED), log)
  {
  }

  /**
   * Connect fills the slot with the new client exactly when opening, connecting and `PING`
   * all succeed, and then reports the host and port; on any failure the slot is unchanged and
   * the failure's text is returned. Nothing is sent but the one connection and the one `PING`.
   */
  lemma ConnectStoresOnlyOnSuccess(d: Driver, slot: Option<Client>, log: seq<Event>,
                                   host: string, port: RedisUrl.Port, password: Option<string>)
    ensures var url := RedisUrl.ConnectionUrl(host, port, password);
      var c := Client(url);
      var r := Connect(d, slot, log, host, port, password);
      && (r.result.Ok? <==>
            d.open(url).None? && d.dial(log, c).None? && d.unit(log + [Dial(c)], c, PING).None?)
      && (r.result.Ok? ==> r.result.value == "Connected to " + host + ":" + RedisUrl.PortText(port)
                           && r.slot == Some(c))
      && (r.result.Err? ==> r.slot == slot)
      && (r.log == log || r.log == log + [Dial(c)] || r.log == log + [Dial(c), Send(c, PING)])
      && (r.result.Ok? ==> r.log == log + [Dial(c), Send(c, PING)])
      && (d.open(url).Some? ==> r == ConnectRun(Err(d.open(url).value), slot, log))
      && (d.open(url).None? && d.dial(log, c).Some? ==>
            r == ConnectRun(Err(d.dial(log, c).value), slot, log + [Dial(c)]))
      && (d.open(url).None? && d.dial(log, c).None? && d.unit(log + [Dial(c)], c, PING).Some? ==>
            r == ConnectRun(Err(d.unit(log + [Dial(c)], c, PING).value), slot, log + [Dial(c), Send(c, PING)]))
  {
  }

  /** What was in the slot before never matters to connect, and a success replaces it. */
  lemma ConnectOverwrites(d: Driver, slot1: Option<Client>, slot2: Option<Client>, log: seq<Event>,
                          host: string, port: RedisUrl.Port, password: Option<string>)
    ensures var r1 := Connect(d, slot1, log, host, port, password);
      var r2 := Connect(d, slot2, log, host, port, password);
      r1.result == r2.result && r1.log == r2.log && (r1.result.Ok? ==> r1.slot == r2.slot)
  {
  }

  /** The dispatch table of `redis_get_value`; `zset`, `stream`, `none` and every other tag fall back. */
  lemma KindTable(key: string, tag: string)
    ensures KindOf("string") == StringKind && ReadCommand(StringKind, key) == ["GET", key]
    ensures KindOf("list") == ListKind && ReadCommand(ListKind, key) == ["LRANGE", key, "0", "-1"]
    ensures KindOf("set") == SetKind && ReadCommand(SetKind, key) == ["SMEMBERS", key]
    ensures KindOf("hash") == HashKind && ReadCommand(HashKind, key) == ["HGETALL", key]
    ensures KindOf(tag) == OtherKind <==> tag !in {"string", "list", "set", "hash"}
    ensures KindOf("zset") == OtherKind
  {
  }

  /**
   * `redis_get_value` with a client in the slot opens one connection, then sends `TYPE key`,
   * then at most one more command: the read command for the tag the server named, sent only
   * when that tag is readable. Everything goes to the slot's client.
   */
  lemma GetValueCommandOrder(d: Driver, c: Client, log: seq<Event>, key: string)
    ensures var r := GetValue(d, Some(c), log, key);
      var issued := r.log[|log|..];
      && |log| < |r.log| <= |log| + 3 && r.log == log + issued
      && issued[0] == Dial(c)
      && (|issued| >= 2 <==> d.dial(log, c).None?)
      && (|issued| >= 2 ==> issued[1] == Send(c, TypeCommand(key)))
      && (|issued| == 3 <==>
            d.dial(log, c).None? && d.text(log + [Dial(c)], c, TypeCommand(key)).Ok?
            && KindOf(d.text(log + [Dial(c)], c, TypeCommand(key)).value) != OtherKind)
      && (|issued| == 3 ==>
            issued[2] == Send(c, ReadCommand(KindOf(d.text(log + [Dial(c)], c, TypeCommand(key)).value), key)))
  {
    var r := GetValue(d, Some(c), log, key);
    assert r.log[..|log|] == log;
  }

  /** A tag with no read command yields `Unsupported type: <tag>` as a success, after `TYPE` alone. */
  lemma UnsupportedFallback(d: Driver, c: Client, log: seq<Event>, key: string, out: Result<string>)
    requires d.dial(log, c).None?
    requires d.text(log + [Dial(c)], c, TypeCommand(key)).Ok?
    requires KindOf(d.text(log + [Dial(c)], c, TypeCommand(key)).value) == OtherKind
    requires Delivers(GetValue(d, Some(c), log, key).result, out)
    ensures out == Ok("Unsupported type: " + d.text(log + [Dial(c)], c, TypeCommand(key)).value)
    ensures GetValue(d, Some(c), log, key).log == log + [Dial(c), Send(c, TypeCommand(key))]
  {
  }

  /** A rendered value reads back as what was read: JSON arrays and objects decode to the reply. */
  lemma RenderedValueDecodes(v: Value, s: string)
    requires RendersAs(v, s)
    ensures v.Text? ==> s == v.text
    ensures v.Members? ==> Json.DecodeStringArray(s) == Some(v.members)
    ensures v.Fields? ==> Json.DecodeStringObject(s).Some?
                          && Json.Enumerates(Json.DecodeStringObject(s).value, v.fields)
                          && |Json.DecodeStringObject(s).value| == |v.fields|
    ensures v.Unsupported? ==> s == "Unsupported type: " + v.tag
  {
    match v
    case Text(_) =>
    case Members(xs) => Json.ArrayRoundTrip(xs);
    case Fields(m) =>
      var es :| Json.Enumerates(es, m) && s == Json.EncodeStringObject(es);
      Json.ObjectRoundTrip(es);
      Json.EnumeratesSize(es, m);
    case Unsupported(_) =>
  }

  /**
   * The text `redis_get_value` returns, tag by tag, in terms of the server's replies: a string
   * unchanged, a list or a set as a JSON array of its members in reply order, a hash as a JSON
   * object with one member per field, and every error passed on as it is.
   */
  lemma GetValueOutput(d: Driver, c: Client, log: seq<Event>, key: string, out: Result<string>)
    requires Delivers(GetValue(d, Some(c), log, key).result, out)
    ensures d.dial(log, c).Some? ==> out == Err(d.dial(log, c).value)
    ensures var log1 := log + [Dial(c)];
      var tag := d.text(log1, c, TypeCommand(key));
      var log2 := log1 + [Send(c, TypeCommand(key))];
      d.dial(log, c).None? ==>
        && (tag.Err? ==> out == Err(tag.error))
        && (tag == Ok("string") ==> out == d.text(log2, c, ["GET", key]))
        && (tag == Ok("list") ==>
              var reply := d.list(log2, c, ["LRANGE", key, "0", "-1"]);
              (reply.Err? ==> out == Err(reply.error))
              && (reply.Ok? ==> out.Ok? && Json.DecodeStringArray(out.value) == Some(reply.value)))
        && (tag == Ok("set") ==>
              var reply := d.list(log2, c, ["SMEMBERS", key]);
              (reply.Err? ==> out == Err(reply.error))
              && (reply.Ok? ==> out.Ok? && Json.DecodeStringArray(out.value) == Some(reply.value)))
        && (tag == Ok("hash") ==>
              var reply := d.fields(log2, c, ["HGETALL", key]);
              (reply.Err? ==> out == Err(reply.error))
              && (reply.Ok? ==> out.Ok? && Json.DecodeStringObject(out.value).Some?
                                && Json.Enumerates(Json.DecodeStringObject(out.value).value, reply.value)))
        && (tag.Ok? && KindOf(tag.value) == OtherKind ==> out == Ok("Unsupported type: " + tag.value))
  {
    var r := GetValue(d, Some(c), log, key).result;
    if r.Ok? {
      RenderedValueDecodes(r.value, out.value);
    }
  }

  /**
   * `redis_get_keys`, `redis_set_value` and `redis_del_key` with a client in the slot: one
   * connection, then exactly `KEYS pattern`, `SET key value` or `DEL key`, with no retry; the
   * keys come back as the server listed them and every error is passed on.
   */
  lemma SingleCommandIssued(d: Driver, c: Client, log: seq<Event>, pattern: string, key: string, value: string)
    ensures var log1 := log + [Dial(c)];
      var keys := GetKeys(d, Some(c), log, pattern);
      var written := SetValue(d, Some(c), log, key, value);
      var del := DelKey(d, Some(c), log, key);
      && (d.dial(log, c).Some? ==>
            keys == Run(Err(d.dial(log, c).value), log1)
            && written == Run(Err(d.dial(log, c).value), log1)
            && del == Run(Err(d.dial(log, c).value), log1))
      && (d.dial(log, c).None? ==>
            && keys == Run(d.list(log1, c, ["KEYS", pattern]), log1 + [Send(c, ["KEYS", pattern])])
            && written.log == log1 + [Send(c, ["SET", key, value])]
            && (written.result.Ok? <==> d.unit(log1, c, ["SET", key, value]).None?)
            && (written.result.Err? ==> written.result.error == d.unit(log1, c, ["SET", key, value]).value)
            && del.log == log1 + [Send(c, ["DEL", key])]
            && (del.result.Ok? <==> d.unit(log1, c, ["DEL", key]).None?)
            && (del.result.Err? ==> del.result.error == d.unit(log1, c, ["DEL", key]).value))
  {
  }
}
