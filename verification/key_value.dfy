/**
 * The key-value backend the cache storage talks to (a Predis client in front of
 * a Redis server), reduced to a map from physical key to entry. The client
 * prepends its configured prefix to every key it sends; the physical keys of
 * the map carry it. Time does not pass inside the model: an entry keeps the
 * relative TTL or the absolute deadline it was given.
 */
module KeyValue {
  import opened Wrappers

  datatype Expiry = Persistent | Ttl(seconds: int) | Deadline(at: int)

  datatype Entry = Entry(payload: string, expiry: Expiry)

  type Store = map<string, Entry>

  /** The commands the storage issues, with keys as the storage passes them. */
  datatype Command =
    | Set(key: string, payload: string)
    | SetEx(key: string, seconds: int, payload: string)
    | ExpireAt(key: string, at: int)
    | Del(keys: seq<string>)

  /** The key the server sees once the client has applied its prefix. */
  function Physical(prefix: Option<string>, key: string): string {
    match prefix
    case None => key
    case Some(p) => p + key
  }

  function PhysicalKeys(prefix: Option<string>, keys: seq<string>): set<string> {
    set k | k in keys :: Physical(prefix, k)
  }

  /** `GET`: the payload stored under a key, if any. */
  function Lookup(s: Store, prefix: Option<string>, key: string): Option<string> {
    var pk := Physical(prefix, key);
    if pk in s then Some(s[pk].payload) else None
  }

  /**
   * The effect of one command on the server; None is a server error, which the
   * client raises as an exception. SET clears any TTL; SETEX refuses a TTL that
   * is not positive; EXPIREAT ignores a missing key and deletes the key when the
   * deadline is not in the future; DEL needs at least one key and ignores the
   * keys that are absent.
   */
  function Apply(s: Store, prefix: Option<string>, cmd: Command, now: int): Option<Store> {
    match cmd
    case Set(k, p) => Some(s[Physical(prefix, k) := Entry(p, Persistent)])
    case SetEx(k, ttl, p) =>
      if ttl <= 0 then None else Some(s[Physical(prefix, k) := Entry(p, Ttl(ttl))])
    case ExpireAt(k, at) =>
      var pk := Physical(prefix, k);
      if pk !in s then Some(s)
      else if at <= now then Some(s - {pk})
      else Some(s[pk := s[pk].(expiry := Deadline(at))])
    case Del(ks) =>
      if ks == [] then None else Some(s - PhysicalKeys(prefix, ks))
  }

  /** Commands issued one after another; the first error stops the sequence. */
  function Run(s: Store, prefix: Option<string>, cmds: seq<Command>, now: int): Option<Store>
    decreases |cmds|
  {
    if cmds == [] then Some(s)
    else match Apply(s, prefix, cmds[0], now)
      case None => None
      case Some(s') => Run(s', prefix, cmds[1..], now)
  }

  lemma RunOne(s: Store, prefix: Option<string>, c: Command, now: int)
    ensures Run(s, prefix, [c], now) == Apply(s, prefix, c, now)
  {
    assert [c][1..] == [];
  }

  lemma RunTwo(s: Store, prefix: Option<string>, c: Command, d: Command, now: int)
    ensures Run(s, prefix, [c, d], now) ==
      if Apply(s, prefix, c, now).None? then None else Apply(Apply(s, prefix, c, now).value, prefix, d, now)
  {
    assert [c, d][1..] == [d];
    if Apply(s, prefix, c, now).Some? {
      RunOne(Apply(s, prefix, c, now).value, prefix, d, now);
    }
  }

  lemma RemoveTwice(s: Store, a: set<string>, b: set<string>)
    ensures s - a - b == s - (a + b)
  {
  }

  lemma PhysicalKeysConcat(prefix: Option<string>, a: seq<string>, b: seq<string>)
    ensures PhysicalKeys(prefix, a + b) == PhysicalKeys(prefix, a) + PhysicalKeys(prefix, b)
  {
    assert forall k :: k in a + b <==> k in a || k in b;
  }

  /** Deleting the same keys twice leaves the store as deleting them once. */
  lemma DelIdempotent(s: Store, prefix: Option<string>, keys: seq<string>, now: int)
    requires keys != []
    ensures Apply(s, prefix, Del(keys), now).Some?
    ensures Apply(Apply(s, prefix, Del(keys), now).value, prefix, Del(keys), now) == Apply(s, prefix, Del(keys), now)
  {
    var once := s - PhysicalKeys(prefix, keys);
    assert once - PhysicalKeys(prefix, keys) == once;
  }

  /** Deleting keys none of which is present succeeds and changes nothing. */
  lemma DelAbsentKeys(s: Store, prefix: Option<string>, keys: seq<string>, now: int)
    requires keys != []
    requires forall k :: k in keys ==> Physical(prefix, k) !in s
    ensures Apply(s, prefix, Del(keys), now) == Some(s)
  {
    assert s - PhysicalKeys(prefix, keys) == s;
  }

  /** The Predis client: its key prefix, the server's data and the commands sent so far. */
  class Client {
    const prefix: Option<string>
    var data: Store
    ghost var log: seq<Command>

    constructor (prefix: Option<string>, data: Store)
      ensures this.prefix == prefix && this.data == data && log == []
    {
      this.prefix := prefix;
      this.data := data;
      log := [];
    }

    function Get(key: string): Option<string>
      reads this
    {
      Lookup(data, prefix, key)
    }

    /** Sends one command; `ok` is false when the server answered with an error. */
    method Execute(cmd: Command, now: int) returns (ok: bool)
      modifies this
      ensures log == old(log) + [cmd]
      ensures ok == Apply(old(data), prefix, cmd, now).Some?
      ensures data == if ok then Apply(old(data), prefix, cmd, now).value else old(data)
    {
      log := log + [cmd];
      var next := Apply(data, prefix, cmd, now);
      ok := next.Some?;
      if ok {
        data := next.value;
      }
    }
  }
}
