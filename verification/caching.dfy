/**
 * The tagged cache storage (`RedisStorage`): the framework's cache contract
 * (read, write, remove, clean) mapped onto the key-value backend.
 */
module Caching {
  import opened Wrappers
  import opened Php
  import opened Serialization
  import opened KeyValue
  import opened Batching

  /** Page size of the tag sweep when no valid item count is given. */
  const DefaultItemsPerPage: nat := 100

  /**
   * The entries of a write's dependency array that the storage reads. The
   * expiration is already the integer `(int)` makes of it. `sliding` is None
   * when the entry is unset or NULL, Some(true) when it is identical to TRUE,
   * and Some(false) for any other value.
   */
  datatype Dependencies = Dependencies(tags: Option<seq<string>>, expiration: Option<int>, sliding: Option<bool>)

  /** The ITEMS condition of `clean`: absent, an int, or a value of another type. */
  datatype Items = NoItems | IntItems(n: int) | OtherItems

  datatype Conditions = Conditions(tags: Option<seq<string>>, items: Items)

  /** The argument of `remove`: one key or an array of keys. */
  datatype KeyArgument = OneKey(key: string) | KeyArray(keys: seq<string>)

  /** The storage key of a write: the tags, in order, appended as `key#t1#t2…`. */
  function ComposeKey(key: string, tags: Option<seq<string>>): string {
    match tags
    case None => key
    case Some(ts) => key + "#" + Implode('#', ts)
  }

  /** `remove` turns a single key into a one-element list. */
  function KeyList(arg: KeyArgument): seq<string> {
    match arg
    case OneKey(k) => [k]
    case KeyArray(ks) => ks
  }

  /** The page size of the sweep: ITEMS when it is a positive int, 100 otherwise. */
  function PageSize(items: Items): (n: nat)
    ensures n > 0
  {
    if items.IntItems? && items.n > 0 then items.n else DefaultItemsPerPage
  }

  /** The scan pattern for one tag: `*#tag*`. */
  function TagPattern(tag: string): string {
    "*#" + tag + "*"
  }

  /** Drops `strlen(prefix)` characters from a scanned key when the prefix is truthy. */
  function StripPrefix(prefix: Option<string>, key: string): string {
    if prefix.Some? && Truthy(prefix.value) then Substr(key, |prefix.value|) else key
  }

  function StripAll(prefix: Option<string>, keys: seq<string>): (r: seq<string>)
    ensures |r| == |keys|
    ensures forall j :: 0 <= j < |keys| ==> r[j] == StripPrefix(prefix, keys[j])
  {
    seq(|keys|, j requires 0 <= j < |keys| => StripPrefix(prefix, keys[j]))
  }

  /** The keys the sweep collects, tag after tag, in scan order, with the prefix stripped. */
  function Matched(prefix: Option<string>, tags: seq<string>, keyspace: string -> seq<string>): seq<string>
    decreases |tags|
  {
    if tags == [] then []
    else Matched(prefix, tags[..|tags| - 1], keyspace) + StripAll(prefix, keyspace(TagPattern(tags[|tags| - 1])))
  }

  /** What `read` makes of the stored payload: a miss, a falsy payload and a corrupt one are all NULL. */
  function Lenient(stored: Option<string>): Value {
    if stored.Some? && Truthy(stored.value) then
      match Unserialize(stored.value)
      case Some(v) => v
      case None => Null
    else Null
  }

  /** The commands `write` sends. */
  function WritePlan(key: string, value: Value, deps: Dependencies, now: int): seq<Command> {
    var k := ComposeKey(key, deps.tags);
    var payload := Serialize(value);
    match deps.expiration
    case None => [Set(k, payload)]
    case Some(e) =>
      if deps.sliding == Some(false) then [Set(k, payload), ExpireAt(k, now + e)]
      else [SetEx(k, e, payload)]
  }

  function DelCommands(pages: seq<seq<string>>): (r: seq<Command>)
    ensures |r| == |pages|
    ensures forall i :: 0 <= i < |pages| ==> r[i] == Del(pages[i])
  {
    seq(|pages|, i requires 0 <= i < |pages| => Del(pages[i]))
  }

  /** Every key the sweep of `clean` collects (nothing without TAGS). */
  function MatchedKeys(conditions: Conditions, prefix: Option<string>, keyspace: string -> seq<string>): seq<string> {
    match conditions.tags
    case None => []
    case Some(ts) => Matched(prefix, ts, keyspace)
  }

  /** The deletes `clean` sends: one per full page of collected keys. */
  function CleanPlan(conditions: Conditions, prefix: Option<string>, keyspace: string -> seq<string>): seq<Command> {
    DelCommands(Batches(MatchedKeys(conditions, prefix, keyspace), PageSize(conditions.items)))
  }

  /** The keys `clean` deletes: those of the full pages. */
  function CleanedKeys(conditions: Conditions, prefix: Option<string>, keyspace: string -> seq<string>): seq<string> {
    Flatten(Batches(MatchedKeys(conditions, prefix, keyspace), PageSize(conditions.items)))
  }

  /** The partial page `clean` collects last and never deletes. */
  function Unflushed(conditions: Conditions, prefix: Option<string>, keyspace: string -> seq<string>): seq<string> {
    Leftover(MatchedKeys(conditions, prefix, keyspace), PageSize(conditions.items))
  }

  // ---------------------------------------------------------------------------
  // Properties

  /**
   * A tagged key is the base key, a '#', then the tags joined by '#'. Splitting
   * what follows the base key on '#' gives the tags back, in order and with
   * duplicates, when no tag contains '#' and there is at least one tag.
   */
  lemma ComposeKeyLayout(key: string, tags: seq<string>)
    ensures var r := ComposeKey(key, Some(tags));
      |r| > |key| && r[..|key|] == key && r[|key|] == '#'
    ensures tags == [] ==> ComposeKey(key, Some(tags)) == key + "#"
    ensures ComposeKey(key, Some([])) == ComposeKey(key, Some([""]))
    ensures |tags| >= 1 && (forall t :: t in tags ==> '#' !in t) ==>
      Explode('#', ComposeKey(key, Some(tags))[|key| + 1..]) == tags
  {
    var r := ComposeKey(key, Some(tags));
    assert r[|key| + 1..] == Implode('#', tags);
    if |tags| >= 1 && (forall t :: t in tags ==> '#' !in t) {
      ExplodeImplode('#', tags);
    }
  }

  /**
   * The effect of a write on the store: without EXPIRATION a persistent entry;
   * with a SLIDING value other than TRUE an absolute deadline now + expiration
   * (a deadline not in the future deletes the key); otherwise a relative TTL,
   * which the server refuses when it is not positive. Only the composed key is
   * touched.
   */
  lemma WriteEffect(s: Store, prefix: Option<string>, key: string, value: Value, deps: Dependencies, now: int)
    ensures var r := Run(s, prefix, WritePlan(key, value, deps, now), now);
      var pk := Physical(prefix, ComposeKey(key, deps.tags));
      var entry := Entry(Serialize(value), Persistent);
      && (deps.expiration.None? ==> r == Some(s[pk := entry]))
      && (deps.expiration.Some? && deps.sliding == Some(false) && deps.expiration.value > 0 ==>
            r == Some(s[pk := entry.(expiry := Deadline(now + deps.expiration.value))]))
      && (deps.expiration.Some? && deps.sliding == Some(false) && deps.expiration.value <= 0 ==>
            r == Some(s - {pk}))
      && (deps.expiration.Some? && deps.sliding != Some(false) && deps.expiration.value > 0 ==>
            r == Some(s[pk := entry.(expiry := Ttl(deps.expiration.value))]))
      && (deps.expiration.Some? && deps.sliding != Some(false) && deps.expiration.value <= 0 ==>
            r == None)
  {
    var pk := Physical(prefix, ComposeKey(key, deps.tags));
    var entry := Entry(Serialize(value), Persistent);
    var k := ComposeKey(key, deps.tags);
    if deps.expiration.None? || deps.sliding != Some(false) {
      RunOne(s, prefix, WritePlan(key, value, deps, now)[0], now);
    } else {
      var e := deps.expiration.value;
      RunTwo(s, prefix, Set(k, Serialize(value)), ExpireAt(k, now + e), now);
      assert s[pk := entry][pk := entry.(expiry := Deadline(now + e))] == s[pk := entry.(expiry := Deadline(now + e))];
      assert s[pk := entry] - {pk} == s - {pk};
    }
  }

  /** Every command of a write names the composed key, and there are one or two of them. */
  lemma WritePlanTouchesComposedKey(key: string, value: Value, deps: Dependencies, now: int)
    ensures var plan := WritePlan(key, value, deps, now);
      && 1 <= |plan| <= 2
      && (|plan| == 2 <==> deps.expiration.Some? && deps.sliding == Some(false))
      && forall c :: c in plan ==> !c.Del? && c.key == ComposeKey(key, deps.tags)
  {
  }

  /** A write without tags, then a read of the same key, gives the written value back. */
  lemma WriteThenRead(s: Store, prefix: Option<string>, key: string, value: Value, deps: Dependencies, now: int)
    requires deps.tags.None?
    requires deps.expiration.None? || deps.expiration.value > 0
    ensures Run(s, prefix, WritePlan(key, value, deps, now), now).Some?
    ensures Lenient(Lookup(Run(s, prefix, WritePlan(key, value, deps, now), now).value, prefix, key)) == value
  {
    WriteEffect(s, prefix, key, value, deps, now);
    UnserializeSerialize(value);
  }

  /** A tagged write leaves the entry under the base key as it was. */
  lemma TaggedWriteKeepsBaseKey(s: Store, prefix: Option<string>, key: string, value: Value, deps: Dependencies, now: int)
    requires deps.tags.Some?
    requires Run(s, prefix, WritePlan(key, value, deps, now), now).Some?
    ensures Lookup(Run(s, prefix, WritePlan(key, value, deps, now), now).value, prefix, key) == Lookup(s, prefix, key)
    ensures var s' := Run(s, prefix, WritePlan(key, value, deps, now), now).value;
      var pk := Physical(prefix, key);
      (pk in s' <==> pk in s) && (pk in s ==> s'[pk] == s[pk])
  {
    WriteEffect(s, prefix, key, value, deps, now);
    ComposeKeyLayout(key, deps.tags.value);
    assert |Physical(prefix, ComposeKey(key, deps.tags))| > |Physical(prefix, key)|;
  }

  /** A read is NULL for a missing key, a falsy payload ("" or "0") and a payload that does not decode. */
  lemma ReadMisses(payload: string)
    ensures Lenient(None) == Null
    ensures !Truthy(payload) ==> Lenient(Some(payload)) == Null
    ensures Unserialize(payload).None? ==> Lenient(Some(payload)) == Null
    ensures Truthy(payload) && Unserialize(payload).Some? ==> Lenient(Some(payload)) == Unserialize(payload).value
  {
  }

  /** An ITEMS value that is not a positive int sweeps exactly as no ITEMS at all. */
  lemma InvalidItemsUseDefault(tags: Option<seq<string>>, items: Items, prefix: Option<string>, keyspace: string -> seq<string>)
    requires !(items.IntItems? && items.n > 0)
    ensures PageSize(items) == DefaultItemsPerPage
    ensures CleanPlan(Conditions(tags, items), prefix, keyspace) == CleanPlan(Conditions(tags, NoItems), prefix, keyspace)
  {
  }

  /** Stripping a truthy prefix undoes the prefixing the client applies. */
  lemma StripPrefixPhysical(prefix: Option<string>, key: string)
    requires prefix.None? || Truthy(prefix.value)
    ensures StripPrefix(prefix, Physical(prefix, key)) == key
    ensures prefix.Some? ==> Physical(prefix, StripPrefix(prefix, prefix.value + key)) == prefix.value + key
  {
    if prefix.Some? {
      assert (prefix.value + key)[|prefix.value|..] == key;
    }
  }

  /** Every delete `clean` sends carries exactly one page of keys; none is sent without TAGS. */
  lemma CleanDeletesFullPages(conditions: Conditions, prefix: Option<string>, keyspace: string -> seq<string>)
    ensures conditions.tags.None? ==> CleanPlan(conditions, prefix, keyspace) == []
    ensures forall c :: c in CleanPlan(conditions, prefix, keyspace) ==>
      c.Del? && |c.keys| == PageSize(conditions.items)
  {
    var n := PageSize(conditions.items);
    var pages := Batches(MatchedKeys(conditions, prefix, keyspace), n);
    BatchesAreFull(MatchedKeys(conditions, prefix, keyspace), n);
    forall c | c in CleanPlan(conditions, prefix, keyspace) ensures c.Del? && |c.keys| == n {
      var i :| 0 <= i < |pages| && DelCommands(pages)[i] == c;
    }
  }

  /**
   * The collected keys are the deleted ones followed by the unflushed ones;
   * `total mod itemsPerPage` keys are never deleted, and every collected key
   * before them is.
   */
  lemma CleanLeavesRemainder(conditions: Conditions, prefix: Option<string>, keyspace: string -> seq<string>)
    ensures var m := MatchedKeys(conditions, prefix, keyspace);
      && CleanedKeys(conditions, prefix, keyspace) + Unflushed(conditions, prefix, keyspace) == m
      && |Unflushed(conditions, prefix, keyspace)| == |m| % PageSize(conditions.items)
      && |Unflushed(conditions, prefix, keyspace)| < PageSize(conditions.items)
      && (forall i :: 0 <= i < |m| - |m| % PageSize(conditions.items) ==>
            m[i] in CleanedKeys(conditions, prefix, keyspace))
      && (forall k :: k in m && k !in CleanedKeys(conditions, prefix, keyspace) ==>
            k in Unflushed(conditions, prefix, keyspace))
  {
    var m := MatchedKeys(conditions, prefix, keyspace);
    var n := PageSize(conditions.items);
    BatchesPartition(m, n);
    LeftoverIsRemainder(m, n);
    var cleaned := CleanedKeys(conditions, prefix, keyspace);
    forall i | 0 <= i < |m| - |m| % n ensures m[i] in cleaned {
      assert m[i] == (cleaned + Unflushed(conditions, prefix, keyspace))[i];
    }
  }

  /**
   * Three keys tagged `promo` and a page size of 2: one delete of the first two
   * keys is sent, and the third is left in the buffer and never deleted.
   */
  lemma CleanLeavesPartialPage()
    ensures var keyspace := (p: string) => if p == "*#promo*" then ["a#promo", "b#promo", "c#promo"] else [];
      var conditions := Conditions(Some(["promo"]), IntItems(2));
      && CleanPlan(conditions, None, keyspace) == [Del(["a#promo", "b#promo"])]
      && Unflushed(conditions, None, keyspace) == ["c#promo"]
      && "c#promo" in MatchedKeys(conditions, None, keyspace)
      && "c#promo" !in CleanedKeys(conditions, None, keyspace)
  {
    var keyspace := (p: string) => if p == "*#promo*" then ["a#promo", "b#promo", "c#promo"] else [];
    var conditions := Conditions(Some(["promo"]), IntItems(2));
    var m := ["a#promo", "b#promo", "c#promo"];
    assert TagPattern("promo") == "*#promo*";
    assert StripAll(None, m) == m;
    assert ["promo"][..0] == [];
    assert Matched(None, ["promo"], keyspace) == m;
    assert m[..2] == ["a#promo", "b#promo"] && m[2..] == ["c#promo"];
    assert Batches(m[2..], 2) == [];
    assert Batches(m, 2) == [["a#promo", "b#promo"]];
    assert Leftover(m, 2) == ["c#promo"];
    assert Flatten([["a#promo", "b#promo"]]) == ["a#promo", "b#promo"];
  }

  /** One key collected by the sweep: how the pages, the deletes and the deleted keys grow. */
  lemma SweepStep(seen: seq<string>, key: string, n: nat, prefix: Option<string>)
    requires n > 0
    ensures |Leftover(seen, n)| < n
    ensures |Leftover(seen, n)| + 1 == n ==>
      && Leftover(seen + [key], n) == []
      && DelCommands(Batches(seen + [key], n)) == DelCommands(Batches(seen, n)) + [Del(Leftover(seen, n) + [key])]
      && PhysicalKeys(prefix, Flatten(Batches(seen + [key], n)))
         == PhysicalKeys(prefix, Flatten(Batches(seen, n))) + PhysicalKeys(prefix, Leftover(seen, n) + [key])
    ensures |Leftover(seen, n)| + 1 < n ==>
      && Leftover(seen + [key], n) == Leftover(seen, n) + [key]
      && Batches(seen + [key], n) == Batches(seen, n)
  {
    BatchesSnoc(seen, key, n);
    BatchesPartition(seen, n);
    if |Leftover(seen, n)| + 1 == n {
      var page := Leftover(seen, n) + [key];
      assert DelCommands(Batches(seen, n) + [page]) == DelCommands(Batches(seen, n)) + [Del(page)];
      FlattenSnoc(Batches(seen, n), page);
      PhysicalKeysConcat(prefix, Flatten(Batches(seen, n)), page);
    }
  }

  /** The storage: it keeps no state of its own beyond the client it sends commands to. */
  class RedisStorage {
    const client: Client

    constructor (client: Client)
      ensures this.client == client
    {
      this.client := client;
    }

    method Read(key: string) returns (v: Value)
      ensures v == Lenient(client.Get(key))
    {
      var data := client.Get(key);
      v := Null;
      if data.Some? && Truthy(data.value) {
        var decoded := Unserialize(data.value);
        if decoded.Some? {
          v := decoded.value;
        }
      }
    }

    /** `ok` is false when the server refused a command (the source throws). */
    method Write(key: string, value: Value, deps: Dependencies, now: int) returns (ok: bool)
      modifies client
      ensures client.log == old(client.log) + WritePlan(key, value, deps, now)
      ensures ok == Run(old(client.data), client.prefix, WritePlan(key, value, deps, now), now).Some?
      ensures client.data ==
        if ok then Run(old(client.data), client.prefix, WritePlan(key, value, deps, now), now).value
        else old(client.data)
    {
      var k := key;
      if deps.tags.Some? {
        k := k + "#" + Implode('#', deps.tags.value);
      }
      var payload := Serialize(value);
      assert k == ComposeKey(key, deps.tags);
      if deps.expiration.Some? {
        var expiration := deps.expiration.value;
        RunTwo(old(client.data), client.prefix, Set(k, payload), ExpireAt(k, now + expiration), now);
        RunOne(old(client.data), client.prefix, SetEx(k, expiration, payload), now);
        if deps.sliding.Some? && deps.sliding.value != true {
          ok := client.Execute(Set(k, payload), now);
          if ok {
            ok := client.Execute(ExpireAt(k, now + expiration), now);
          }
        } else {
          ok := client.Execute(SetEx(k, expiration, payload), now);
        }
      } else {
        RunOne(old(client.data), client.prefix, Set(k, payload), now);
        ok := client.Execute(Set(k, payload), now);
      }
    }

    /** One DEL over the key list; the server refuses an empty one. */
    method Remove(key: KeyArgument) returns (ok: bool)
      modifies client
      ensures client.log == old(client.log) + [Del(KeyList(key))]
      ensures ok <==> KeyList(key) != []
      ensures client.data ==
        if ok then old(client.data) - PhysicalKeys(client.prefix, KeyList(key)) else old(client.data)
    {
      var keys: seq<string>;
      if key.OneKey? {
        keys := [key.key];
      } else {
        keys := key.keys;
      }
      // DEL does not depend on the clock, so any value of `now` will do.
      ok := client.Execute(Del(keys), now := 0);
    }

    /**
     * The nested loops of `clean`: the buffer and its counter live across tags,
     * and a page is deleted only when the counter reaches the page size.
     * Returns the buffer as it is when the loops end.
     */
    method Sweep(tags: seq<string>, itemsPerPage: nat, keyspace: string -> seq<string>) returns (keysToRemove: seq<string>)
      requires itemsPerPage > 0
      modifies client
      ensures keysToRemove == Leftover(Matched(client.prefix, tags, keyspace), itemsPerPage)
      ensures client.log == old(client.log) + DelCommands(Batches(Matched(client.prefix, tags, keyspace), itemsPerPage))
      ensures client.data == old(client.data) - PhysicalKeys(client.prefix, Flatten(Batches(Matched(client.prefix, tags, keyspace), itemsPerPage)))
    {
      var prefix := client.prefix;
      var n := itemsPerPage;
      keysToRemove := [];
      var count := 0;
      ghost var seen: seq<string> := [];
      assert Flatten<string>([]) == [];
      assert old(client.data) - PhysicalKeys(prefix, []) == old(client.data);
      var i := 0;
      while i < |tags|
        invariant 0 <= i <= |tags|
        invariant seen == Matched(prefix, tags[..i], keyspace)
        invariant count == |keysToRemove| < n
        invariant keysToRemove == Leftover(seen, n)
        invariant client.log == old(client.log) + DelCommands(Batches(seen, n))
        invariant client.data == old(client.data) - PhysicalKeys(prefix, Flatten(Batches(seen, n)))
      {
        var scanned := keyspace(TagPattern(tags[i]));
        var j := 0;
        while j < |scanned|
          invariant 0 <= j <= |scanned|
          invariant seen == Matched(prefix, tags[..i], keyspace) + StripAll(prefix, scanned[..j])
          invariant count == |keysToRemove| < n
          invariant keysToRemove == Leftover(seen, n)
          invariant client.log == old(client.log) + DelCommands(Batches(seen, n))
          invariant client.data == old(client.data) - PhysicalKeys(prefix, Flatten(Batches(seen, n)))
        {
          var key := StripPrefix(prefix, scanned[j]);
          SweepStep(seen, key, n, prefix);
          assert StripAll(prefix, scanned[..j + 1]) == StripAll(prefix, scanned[..j]) + [key];
          keysToRemove := keysToRemove + [key];
          count := count + 1;
          if count == n {
            var ok := Remove(KeyArray(keysToRemove));
            RemoveTwice(old(client.data), PhysicalKeys(prefix, Flatten(Batches(seen, n))), PhysicalKeys(prefix, keysToRemove));
            keysToRemove := [];
            count := 0;
          }
          seen := seen + [key];
          j := j + 1;
        }
        assert scanned[..j] == scanned;
        assert tags[..i + 1][..i] == tags[..i];
        i := i + 1;
      }
      assert tags[..i] == tags;
    }

    method Clean(conditions: Conditions, keyspace: string -> seq<string>)
      modifies client
      ensures client.log == old(client.log) + CleanPlan(conditions, client.prefix, keyspace)
      ensures client.data == old(client.data) - PhysicalKeys(client.prefix, CleanedKeys(conditions, client.prefix, keyspace))
    {
      var itemsPerPage := DefaultItemsPerPage;
      if conditions.items.IntItems? && conditions.items.n > 0 {
        itemsPerPage := conditions.items.n;
      }
      if conditions.tags.Some? {
        var _ := Sweep(conditions.tags.value, itemsPerPage, keyspace);
      } else {
        assert Flatten<string>([]) == [];
        assert old(client.data) - PhysicalKeys(client.prefix, []) == old(client.data);
      }
    }

    /** `clean` with the last partial page flushed: every collected key is deleted. */
    method CleanFlushingRemainder(conditions: Conditions, keyspace: string -> seq<string>)
      modifies client
      ensures client.log == old(client.log) + CleanPlan(conditions, client.prefix, keyspace)
        + (if Unflushed(conditions, client.prefix, keyspace) == [] then []
           else [Del(Unflushed(conditions, client.prefix, keyspace))])
      ensures client.data == old(client.data) - PhysicalKeys(client.prefix, MatchedKeys(conditions, client.prefix, keyspace))
    {
      var itemsPerPage := PageSize(conditions.items);
      var m := MatchedKeys(conditions, client.prefix, keyspace);
      BatchesPartition(m, itemsPerPage);
      PhysicalKeysConcat(client.prefix, Flatten(Batches(m, itemsPerPage)), Leftover(m, itemsPerPage));
      if conditions.tags.Some? {
        var rest := Sweep(conditions.tags.value, itemsPerPage, keyspace);
        if rest != [] {
          var _ := Remove(KeyArray(rest));
        }
      } else {
        assert Flatten<string>([]) == [];
        assert old(client.data) - PhysicalKeys(client.prefix, []) == old(client.data);
      }
    }
  }
}
