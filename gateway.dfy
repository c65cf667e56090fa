/**
 * The gateway's Redis commands as they run: `AppState` holds the one connection slot, which
 * `connect_redis` overwrites in place and every other command reads; `Network` stands for the
 * redis crate and the servers, and records every connection opened and command sent.
 */
module Gateway {
  import opened Wrappers
  import Json
  import RedisUrl
  import Commands

  /** The outside world: the driver's answers and the log of what was asked of it. */
  class Network {
    const driver: Commands.Driver
    var log: seq<Commands.Event>

    constructor (driver: Commands.Driver)
      ensures this.driver == driver && log == []
    {
      this.driver := driver;
      log := [];
    }

    /** `client.get_multiplexed_async_connection()`. */
    method OpenConnection(c: Commands.Client) returns (err: Option<string>)
      modifies this
      ensures err == driver.dial(old(log), c)
      ensures log == old(log) + [Commands.Dial(c)]
    {
      err := driver.dial(log, c);
      log := log + [Commands.Dial(c)];
    }

    /** `query_async::<String>`. */
    method QueryText(c: Commands.Client, cmd: seq<string>) returns (r: Result<string>)
      modifies this
      ensures r == driver.text(old(log), c, cmd)
      ensures log == old(log) + [Commands.Send(c, cmd)]
    {
      r := driver.text(log, c, cmd);
      log := log + [Commands.Send(c, cmd)];
    }

    /** `query_async::<Vec<String>>`. */
    method QueryList(c: Commands.Client, cmd: seq<string>) returns (r: Result<seq<string>>)
      modifies this
      ensures r == driver.list(old(log), c, cmd)
      ensures log == old(log) + [Commands.Send(c, cmd)]
    {
      r := driver.list(log, c, cmd);
      log := log + [Commands.Send(c, cmd)];
    }

    /** `query_async::<HashMap<String, String>>`. */
    method QueryFields(c: Commands.Client, cmd: seq<string>) returns (r: Result<map<string, string>>)
      modifies this
      ensures r == driver.fields(old(log), c, cmd)
      ensures log == old(log) + [Commands.Send(c, cmd)]
    {
      r := driver.fields(log, c, cmd);
      log := log + [Commands.Send(c, cmd)];
    }

    /** `query_async::<()>`. */
    method QueryUnit(c: Commands.Client, cmd: seq<string>) returns (err: Option<string>)
      modifies this
      ensures err == driver.unit(old(log), c, cmd)
      ensures log == old(log) + [Commands.Send(c, cmd)]
    {
      err := driver.unit(log, c, cmd);
      log := log + [Commands.Send(c, cmd)];
    }
  }

  /**
   * The members of a `HashMap` in the order its iteration yields them, which nothing fixes:
   * each field exactly once, with its value.
   */
  method HashMapEntries(m: map<string, string>) returns (es: seq<(string, string)>)
    ensures Json.Enumerates(es, m)
  {
    es := [];
    var remaining := m.Keys;
    while remaining != {}
      invariant remaining <= m.Keys
      invariant Json.KeysDistinct(es)
      invariant forall i :: 0 <= i < |es| ==> es[i].0 !in remaining
      invariant Json.PairsMap(es) == m - remaining
      decreases remaining
    {
      var k :| k in remaining;
      Json.PairsMapAppend(es, (k, m[k]));
      assert (m - remaining)[k := m[k]] == m - (remaining - {k});
      es := es + [(k, m[k])];
      remaining := remaining - {k};
    }
    assert m - {} == m;
  }

  /** The application state: the one Redis client slot, `Mutex<Option<redis::Client>>`. */
  class AppState {
    var redisClient: Option<Commands.Client>

    /** The slot starts empty. */
    constructor ()
      ensures redisClient == None
    {
      redisClient := None;
    }

    /** `connect_redis`: the slot is written only after open, connect and `PING` succeed. */
    method ConnectRedis(net: Network, host: string, port: RedisUrl.Port, password: Option<string>)
      returns (r: Result<string>)
      modifies this, net
      ensures var run := Commands.Connect(net.driver, old(redisClient), old(net.log), host, port, password);
        r == run.result && redisClient == run.slot && net.log == run.log
      ensures r.Err? ==> redisClient == old(redisClient)
      ensures r.Ok? ==> redisClient == Some(Commands.Client(RedisUrl.ConnectionUrl(host, port, password)))
    {
      var url := RedisUrl.ConnectionUrl(host, port, password);
      var openErr := net.driver.open(url);
      if openErr.Some? {
        return Err(openErr.value);
      }
      var client := Commands.Client(url);
      var connErr := net.OpenConnection(client);
      if connErr.Some? {
        return Err(connErr.value);
      }
      var pingErr := net.QueryUnit(client, Commands.PING);
      if pingErr.Some? {
        return Err(pingErr.value);
      }
      redisClient := Some(client);
      return Ok(Commands.ConnectedMessage(host, port));
    }

    /** `redis_get_keys`. */
    method RedisGetKeys(net: Network, pattern: string) returns (r: Result<seq<string>>)
      modifies net
      ensures var run := Commands.GetKeys(net.driver, redisClient, old(net.log), pattern);
        r == run.result && net.log == run.log
      ensures redisClient.None? ==> r == Err(Commands.NOT_CONNECTED) && net.log == old(net.log)
    {
      var slot := redisClient;
      if slot.None? {
        return Err(Commands.NOT_CONNECTED);
      }
      var client := slot.value;
      var connErr := net.OpenConnection(client);
      if connErr.Some? {
        return Err(connErr.value);
      }
      r := net.QueryList(client, Commands.KeysCommand(pattern));
    }

    /** `redis_get_value`. */
    method RedisGetValue(net: Network, key: string) returns (r: Result<string>)
      modifies net
      ensures var run := Commands.GetValue(net.driver, redisClient, old(net.log), key);
        Commands.Delivers(run.result, r) && net.log == run.log
      ensures redisClient.None? ==> r == Err(Commands.NOT_CONNECTED) && net.log == old(net.log)
    {
      var slot := redisClient;
      if slot.None? {
        return Err(Commands.NOT_CONNECTED);
      }
      var client := slot.value;
      var connErr := net.OpenConnection(client);
      if connErr.Some? {
        return Err(connErr.value);
      }
      var keyType := net.QueryText(client, Commands.TypeCommand(key));
      if keyType.Err? {
        return Err(keyType.error);
      }
      var tag := keyType.value;
      match Commands.KindOf(tag)
      case StringKind =>
        var val := net.QueryText(client, Commands.ReadCommand(Commands.StringKind, key));
        if val.Err? {
          return Err(val.error);
        }
        r := Ok(val.value);
      case ListKind =>
        var val := net.QueryList(client, Commands.ReadCommand(Commands.ListKind, key));
        if val.Err? {
          return Err(val.error);
        }
        r := Ok(Json.EncodeStringArray(val.value));
      case SetKind =>
        var val := net.QueryList(client, Commands.ReadCommand(Commands.SetKind, key));
        if val.Err? {
          return Err(val.error);
        }
        r := Ok(Json.EncodeStringArray(val.value));
      case HashKind =>
        var val := net.QueryFields(client, Commands.ReadCommand(Commands.HashKind, key));
        if val.Err? {
          return Err(val.error);
        }
        var entries := HashMapEntries(val.value);
        r := Ok(Json.EncodeStringObject(entries));
        assert Json.Enumerates(entries, val.value) && r.value == Json.EncodeStringObject(entries);
      case OtherKind =>
        r := Ok("Unsupported type: " + tag);
    }

    /** `redis_set_value`. */
    method RedisSetValue(net: Network, key: string, value: string) returns (r: Result<()>)
      modifies net
      ensures var run := Commands.SetValue(net.driver, redisClient, old(net.log), key, value);
        r == run.result && net.log == run.log
      ensures redisClient.None? ==> r == Err(Commands.NOT_CONNECTED) && net.log == old(net.log)
    {
      var slot := redisClient;
      if slot.None? {
        return Err(Commands.NOT_CONNECTED);
      }
      var client := slot.value;
      var connErr := net.OpenConnection(client);
      if connErr.Some? {
        return Err(connErr.value);
      }
      var err := net.QueryUnit(client, Commands.SetCommand(key, value));
      if err.Some? {
        return Err(err.value);
      }
      r := Ok(());
    }

    /** `redis_del_key`. */
    method RedisDelKey(net: Network, key: string) returns (r: Result<()>)
      modifies net
      ensures var run := Commands.DelKey(net.driver, redisClient, old(net.log), key);
        r == run.result && net.log == run.log
      ensures redisClient.None? ==> r == Err(Commands.NOT_CONNECTED) && net.log == old(net.log)
    {
      var slot := redisClient;
      if slot.None? {
        return Err(Commands.NOT_CONNECTED);
      }
      var client := slot.value;
      var connErr := net.OpenConnection(client);
      if connErr.Some? {
        return Err(connErr.value);
      }
      var err := net.QueryUnit(client, Commands.DelCommand(key));
      if err.Some? {
        return Err(err.value);
      }
      r := Ok(());
    }
  }

  /**
   * A session from a fresh state: a read before any connect is refused and sends nothing;
   * after a connect, key listing goes to the client connect stored if it succeeded, and is
   * still refused if it failed.
   */
  method ReadConnectList(net: Network, key: string, host: string, port: RedisUrl.Port,
                         password: Option<string>, pattern: string)
    returns (before: Result<string>, connected: Result<string>, keys: Result<seq<string>>)
    modifies net
    ensures before == Err(Commands.NOT_CONNECTED)
    ensures connected.Err? ==> keys == Err(Commands.NOT_CONNECTED)
    ensures connected.Ok? ==>
      var c := Commands.Client(RedisUrl.ConnectionUrl(host, port, password));
      |net.log| > |old(net.log)| + 2
      && net.log[|old(net.log)|..|old(net.log)| + 3] == [Commands.Dial(c), Commands.Send(c, Commands.PING), Commands.Dial(c)]
  {
    var state := new AppState();
    before := state.RedisGetValue(net, key);
    connected := state.ConnectRedis(net, host, port, password);
    keys := state.RedisGetKeys(net, pattern);
  }
}
