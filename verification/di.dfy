/**
 * The connection rules of the dependency-injection extension (`RedisExtension`)
 * without the container: per-connection normalisation of the URI, the cluster
 * option and the key prefix, the required `default` connection, autowiring,
 * and the rule that at most one connection handles sessions.
 */
module DI {
  import opened Wrappers
  import opened Php
  import Caching

  const DefaultConnectionName := "default"
  const DefaultClusterMode := "redis"

  /** A connection's `uri`: one address, or an array of them. */
  datatype Uri = Address(address: string) | AddressList(addresses: seq<string>)

  /** A connection's `sessions`: FALSE, TRUE, or an array whose only key is `ttl`. */
  datatype Sessions = Disabled | Enabled | Configured(ttl: Option<int>)

  /** One entry of the `connection` section, with the connection defaults already merged in. */
  datatype ConnectionConfig = ConnectionConfig(uri: Uri, options: map<string, string>, storage: bool, sessions: Sessions)

  datatype NamedConnection = NamedConnection(name: string, config: ConnectionConfig)

  /** The client service registered for a connection, and the record kept of it. */
  datatype ClientDefinition = ClientDefinition(name: string, uri: Uri, options: map<string, string>, autowired: bool)

  datatype SessionConfig = SessionConfig(ttl: Option<int>)

  /** The session handler registered on a connection's client. */
  datatype SessionHandler = SessionHandler(connection: string, config: SessionConfig)

  datatype ConfigError = MissingDefaultConnection | TwoSessionHandlers(first: string, second: string)

  /** A URI array of any length but one is a cluster. */
  predicate IsCluster(uri: Uri) {
    uri.AddressList? && |uri.addresses| != 1
  }

  /** `substr($prefix, -1) === ':'`. */
  predicate EndsWithColon(s: string) {
    |s| > 0 && s[|s| - 1] == ':'
  }

  function NormalizeUri(uri: Uri): Uri {
    if uri.AddressList? && |uri.addresses| == 1 then Address(uri.addresses[0]) else uri
  }

  function NormalizeOptions(options: map<string, string>, cluster: bool): map<string, string> {
    var withCluster := if cluster && "cluster" !in options then options["cluster" := DefaultClusterMode] else options;
    if "prefix" in withCluster && !EndsWithColon(withCluster["prefix"])
    then withCluster["prefix" := withCluster["prefix"] + ":"]
    else withCluster
  }

  /** The per-connection rewriting of `loadConfiguration`. */
  function NormalizeConnection(c: ConnectionConfig): (r: ConnectionConfig)
    ensures !(r.uri.AddressList? && |r.uri.addresses| == 1)
    ensures IsCluster(r.uri) == IsCluster(c.uri)
    ensures IsCluster(c.uri) ==> "cluster" in r.options
    ensures "prefix" in r.options <==> "prefix" in c.options
    ensures "prefix" in r.options ==> EndsWithColon(r.options["prefix"])
    ensures r.storage == c.storage && r.sessions == c.sessions
  {
    c.(uri := NormalizeUri(c.uri), options := NormalizeOptions(c.options, IsCluster(c.uri)))
  }

  function Define(connection: NamedConnection): ClientDefinition {
    var c := NormalizeConnection(connection.config);
    ClientDefinition(connection.name, c.uri, c.options, connection.name == DefaultConnectionName)
  }

  predicate HasDefault(connections: seq<NamedConnection>) {
    exists i :: 0 <= i < |connections| && connections[i].name == DefaultConnectionName
  }

  /** `loadConfiguration`: requires a `default` connection, then one client per connection, in order. */
  method LoadConfiguration(connections: seq<NamedConnection>) returns (r: Result<seq<ClientDefinition>, ConfigError>)
    ensures r.Failure? <==> !HasDefault(connections)
    ensures r.Failure? ==> r.error == MissingDefaultConnection
    ensures r.Success? ==> |r.value| == |connections|
    ensures r.Success? ==> forall i :: 0 <= i < |connections| ==> r.value[i] == Define(connections[i])
    ensures r.Success? ==> forall i :: 0 <= i < |connections| ==>
      r.value[i].name == connections[i].name && (r.value[i].autowired <==> connections[i].name == DefaultConnectionName)
  {
    if !HasDefault(connections) {
      return Failure(MissingDefaultConnection);
    }
    var defined: seq<ClientDefinition> := [];
    for i := 0 to |connections|
      invariant |defined| == i
      invariant forall k :: 0 <= k < i ==> defined[k] == Define(connections[k])
    {
      defined := defined + [Define(connections[i])];
    }
    return Success(defined);
  }

  /** `sessions === TRUE` takes the session defaults (no ttl); an array gives its own ttl. */
  function SessionConfigOf(sessions: Sessions): SessionConfig
    requires !sessions.Disabled?
  {
    match sessions
    case Enabled => SessionConfig(None)
    case Configured(ttl) => SessionConfig(ttl)
  }

  /** The handler every connection whose `sessions` is not FALSE asks for, in order. */
  function SessionHandlers(connections: seq<NamedConnection>): seq<SessionHandler>
    decreases |connections|
  {
    if connections == [] then []
    else
      var last := connections[|connections| - 1];
      SessionHandlers(connections[..|connections| - 1])
        + (if last.config.sessions.Disabled? then [] else [SessionHandler(last.name, SessionConfigOf(last.config.sessions))])
  }

  /** `beforeCompileSession`: at most one connection may register a session handler. */
  method RegisterSessionHandler(connections: seq<NamedConnection>) returns (r: Result<Option<SessionHandler>, ConfigError>)
    ensures var wanted := SessionHandlers(connections);
      && (|wanted| == 0 ==> r == Success(None))
      && (|wanted| == 1 ==> r == Success(Some(wanted[0])))
      && (|wanted| >= 2 ==> r == Failure(TwoSessionHandlers(wanted[0].connection, wanted[1].connection)))
  {
    var handling: Option<SessionHandler> := None;
    var i := 0;
    while i < |connections|
      invariant 0 <= i <= |connections|
      invariant |SessionHandlers(connections[..i])| <= 1
      invariant handling == if SessionHandlers(connections[..i]) == [] then None else Some(SessionHandlers(connections[..i])[0])
    {
      var name := connections[i].name;
      var sessions := connections[i].config.sessions;
      assert connections[..i + 1][..i] == connections[..i];
      if !sessions.Disabled? {
        if handling.None? {
          handling := Some(SessionHandler(name, SessionConfigOf(sessions)));
        } else {
          SessionHandlersPrefix(connections, i + 1);
          return Failure(TwoSessionHandlers(handling.value.connection, name));
        }
      }
      i := i + 1;
    }
    assert connections[..i] == connections;
    return Success(handling);
  }

  // ---------------------------------------------------------------------------
  // Properties

  /** The handlers asked for by a prefix of the connections are a prefix of all those asked for. */
  lemma {:induction false} SessionHandlersPrefix(connections: seq<NamedConnection>, j: nat)
    requires j <= |connections|
    ensures |SessionHandlers(connections[..j])| <= |SessionHandlers(connections)|
    ensures SessionHandlers(connections[..j]) == SessionHandlers(connections)[..|SessionHandlers(connections[..j])|]
    decreases |connections|
  {
    if j < |connections| {
      var init := connections[..|connections| - 1];
      assert init[..j] == connections[..j];
      SessionHandlersPrefix(init, j);
    } else {
      assert connections[..j] == connections;
    }
  }

  /** Every connection whose `sessions` is not FALSE asks for a handler, and only those do. */
  lemma {:induction false} SessionHandlersExact(connections: seq<NamedConnection>)
    ensures forall i :: 0 <= i < |connections| && !connections[i].config.sessions.Disabled? ==>
      SessionHandler(connections[i].name, SessionConfigOf(connections[i].config.sessions)) in SessionHandlers(connections)
    ensures forall h :: h in SessionHandlers(connections) ==>
      exists i :: 0 <= i < |connections| && !connections[i].config.sessions.Disabled? &&
        h == SessionHandler(connections[i].name, SessionConfigOf(connections[i].config.sessions))
    decreases |connections|
  {
    if connections != [] {
      var init := connections[..|connections| - 1];
      SessionHandlersExact(init);
      forall h | h in SessionHandlers(connections)
        ensures exists i :: (0 <= i < |connections| && !connections[i].config.sessions.Disabled? &&
                             h == SessionHandler(connections[i].name, SessionConfigOf(connections[i].config.sessions)))
      {
        if h in SessionHandlers(init) {
          var i :| 0 <= i < |init| && !init[i].config.sessions.Disabled? &&
            h == SessionHandler(init[i].name, SessionConfigOf(init[i].config.sessions));
          assert connections[i] == init[i];
        } else {
          assert connections[|connections| - 1] == connections[|connections| - 1];
        }
      }
    }
  }

  /** `sessions === TRUE` registers the session defaults (no ttl); an array registers its own ttl. */
  lemma SessionConfigDefaults(connections: seq<NamedConnection>)
    ensures forall i :: 0 <= i < |connections| && connections[i].config.sessions.Enabled? ==>
      SessionHandler(connections[i].name, SessionConfig(None)) in SessionHandlers(connections)
    ensures forall i :: 0 <= i < |connections| && connections[i].config.sessions.Configured? ==>
      SessionHandler(connections[i].name, SessionConfig(connections[i].config.sessions.ttl)) in SessionHandlers(connections)
  {
    SessionHandlersExact(connections);
  }

  /** A one-element URI array becomes that address; every other array is a cluster and stays as it is. */
  lemma NormalizeUriCases(uri: Uri)
    ensures uri.AddressList? && |uri.addresses| == 1 ==>
      NormalizeUri(uri) == Address(uri.addresses[0]) && !IsCluster(NormalizeUri(uri))
    ensures uri.AddressList? && |uri.addresses| != 1 ==> NormalizeUri(uri) == uri && IsCluster(uri)
    ensures uri.Address? ==> NormalizeUri(uri) == uri && !IsCluster(uri)
  {
  }

  /**
   * For a cluster `options.cluster` defaults to 'redis' and a given value is
   * kept; a prefix gains a ':' unless it already ends in one; every other
   * option is unchanged.
   */
  lemma NormalizeOptionsCases(c: ConnectionConfig)
    ensures var r := NormalizeConnection(c).options;
      && (IsCluster(c.uri) && "cluster" !in c.options ==> r["cluster"] == DefaultClusterMode)
      && ("cluster" in c.options ==> "cluster" in r && r["cluster"] == c.options["cluster"])
      && (!IsCluster(c.uri) ==> ("cluster" in r <==> "cluster" in c.options))
      && ("prefix" in c.options && EndsWithColon(c.options["prefix"]) ==> r["prefix"] == c.options["prefix"])
      && ("prefix" in c.options && !EndsWithColon(c.options["prefix"]) ==> r["prefix"] == c.options["prefix"] + ":")
      && (forall k :: k in c.options && k != "cluster" && k != "prefix" ==> k in r && r[k] == c.options[k])
      && (forall k :: k in r ==> k in c.options || k == "cluster")
  {
  }

  /** Normalising a normalised connection changes nothing. */
  lemma NormalizeIdempotent(c: ConnectionConfig)
    ensures NormalizeConnection(NormalizeConnection(c)) == NormalizeConnection(c)
  {
    var once := NormalizeConnection(c);
    assert NormalizeUri(once.uri) == once.uri;
    assert NormalizeOptions(once.options, IsCluster(once.uri)) == once.options;
  }

  /**
   * A normalised prefix is never falsy, so the tag sweep of the storage always
   * strips it from scanned keys, recovering the keys the client prefixed.
   */
  lemma NormalizedPrefixIsStripped(c: ConnectionConfig, key: string)
    requires "prefix" in NormalizeConnection(c).options
    ensures Truthy(NormalizeConnection(c).options["prefix"])
    ensures var p := NormalizeConnection(c).options["prefix"];
      Caching.StripPrefix(Some(p), p + key) == key
  {
    var p := NormalizeConnection(c).options["prefix"];
    assert p[|p| - 1] == ':';
    Caching.StripPrefixPhysical(Some(p), key);
  }
}
