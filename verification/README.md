# Redis cache storage and connection configuration, modelled in Dafny

This project models two parts of the Venalio Redis integration for Nette.

**`RedisStorage`** is the tagged cache storage. It stores cache entries in Redis through a Predis client:

- `read` is lenient. A missing key, a falsy payload (`""`, `"0"`) and a payload that fails to decode all read as `NULL`.
- `write` appends the tags to the key as `key#t1#t2…`. It then chooses between plain `SET` then `EXPIREAT now+ttl` (when `SLIDING` is set to anything but `TRUE`), a single `SETEX ttl`, and a plain `SET` (no `EXPIRATION`).
- `remove` wraps one key into a list and sends one `DEL`.
- `clean` sweeps by tag. For each tag it scans `*#tag*`, strips the client's key prefix, and deletes the collected keys in pages of `ITEMS` (default 100). The page buffer carries over between tags. A `DEL` is sent only when the buffer holds exactly one page, so the partial page left at the end is never deleted.

**`RedisExtension`** is the DI extension. Once the container calls are removed, it is a set of rules over the `connection` configuration:

- a `default` connection is required;
- a one-element URI array collapses to its address; any other array is a cluster, and `options.cluster` defaults to `'redis'`;
- a key prefix gains a trailing `':'`;
- only `default` is autowired;
- at most one connection may enable sessions.

Layout:

- `wrappers.dfy`: `Option` and `Result`.
- `php.dfy`: PHP truthiness, `substr`, `implode`, and `explode` (used as the inverse of `implode`).
- `serialization.dfy`: the payload codec.
- `key_value.dfy`: the backend. The server is a map from physical key (client prefix + key) to payload and expiry. The `Client` class holds that map and a log of the commands sent.
- `batching.dfy`: cutting a key stream into full pages and a leftover.
- `caching.dfy`: the `RedisStorage` class, the functions that specify it, and its properties.
- `di.dfy`: connection normalisation, `LoadConfiguration` and `RegisterSessionHandler`.

The code declares the buffer and its counter once, before the tag loop (RedisStorage.php:79-80), so they carry over between tags. The model follows the code.

## Model

| member | source | states |
|---|---|---|
| `Caching.ComposeKeyLayout` | src/Venalio/Redis/Caching/Storage/RedisStorage.php:41-45 | A tagged key is the base key, `#`, then the tags joined by `#`. An empty tag list still appends a lone `#`. For a non-empty tag list in which no tag contains `#`, splitting the suffix on `#` gives the tags back in order, duplicates kept. An empty list gives the same key as `[""]`. |
| `Caching.TaggedWriteKeepsBaseKey` | src/Venalio/Redis/Caching/Storage/RedisStorage.php:41-45 | After a successful tagged write, the entry under the untagged base key (payload and expiry, or its absence) is unchanged, so a read of the base key does not see the tagged entry. |
| `Caching.WriteEffect` | src/Venalio/Redis/Caching/Storage/RedisStorage.php:47-58 | Store after a write. No EXPIRATION: a persistent entry. SLIDING set and not TRUE: an absolute deadline `now + expiration`, and the key is gone if that deadline is not in the future. Otherwise: a relative TTL, and the write fails with the store unchanged when the TTL is not positive. Only the composed key changes. |
| `Caching.WritePlanTouchesComposedKey` | src/Venalio/Redis/Caching/Storage/RedisStorage.php:47-58 | A write sends one command, or two exactly when EXPIRATION is set and SLIDING is set to anything but TRUE. Every command names the composed key. |
| `Caching.RedisStorage.Write` | src/Venalio/Redis/Caching/Storage/RedisStorage.php:39-59 | Sends exactly the planned commands, in order. The new store is what they produce; on a server error the store is unchanged. |
| `Caching.WriteThenRead` | src/Venalio/Redis/Caching/Storage/RedisStorage.php:24-58 | An untagged write with no expiration or a positive one succeeds, and reading the key back returns the written value. |
| `Caching.ReadMisses` | src/Venalio/Redis/Caching/Storage/RedisStorage.php:24-37 | Read gives NULL for a missing key, a falsy payload and a payload whose decoding fails. Otherwise it gives the decoded value. |
| `Caching.RedisStorage.Read` | src/Venalio/Redis/Caching/Storage/RedisStorage.php:24-37 | Returns the lenient decoding of the payload stored under the key. |
| `Caching.RedisStorage.Remove` | src/Venalio/Redis/Caching/Storage/RedisStorage.php:61-68 | Sends exactly one `DEL` over the key list, with a single key wrapped into a one-element list. It removes those keys' physical entries and nothing else. An empty list is refused by the server. |
| `KeyValue.DelIdempotent` | src/Venalio/Redis/Caching/Storage/RedisStorage.php:61-68 | Deleting the same keys twice leaves the store as deleting them once. |
| `KeyValue.DelAbsentKeys` | src/Venalio/Redis/Caching/Storage/RedisStorage.php:61-68 | Deleting keys that are all absent succeeds and leaves the store unchanged. |
| `Caching.PageSize` | src/Venalio/Redis/Caching/Storage/RedisStorage.php:72-76 | The sweep's page size is always positive. |
| `Caching.InvalidItemsUseDefault` | src/Venalio/Redis/Caching/Storage/RedisStorage.php:72-76 | An ITEMS value that is not a positive int gives page size 100, and the sweep sends the same deletes as with no ITEMS. |
| `Caching.StripPrefixPhysical` | src/Venalio/Redis/Caching/Storage/RedisStorage.php:84 | Stripping a truthy prefix (or none) from a key the client prefixed gives the key back. Re-prefixing a stripped key gives the scanned physical key. |
| `Caching.RedisStorage.Sweep` | src/Venalio/Redis/Caching/Storage/RedisStorage.php:78-93 | The nested loops send one `DEL` per full page of collected keys, in collection order. They delete exactly those keys. The buffer they end with is the partial page. |
| `Caching.RedisStorage.Clean` | src/Venalio/Redis/Caching/Storage/RedisStorage.php:70-95 | Sends the sweep's deletes, or none without TAGS. It removes exactly the keys of the full pages. |
| `Caching.CleanDeletesFullPages` | src/Venalio/Redis/Caching/Storage/RedisStorage.php:87-91 | Every delete clean sends carries exactly `itemsPerPage` keys. Clean without TAGS sends none. |
| `Caching.CleanLeavesRemainder` | src/Venalio/Redis/Caching/Storage/RedisStorage.php:79-93 | The collected keys are the keys of the full pages followed by the unflushed ones. The last `total mod itemsPerPage` collected keys (fewer than one page) are sent in no DEL, and every key collected before them is. A collected key that is in no DEL is among those unflushed keys, so at most that many collected keys survive (fewer when a key was collected twice). |
| `Batching.BatchesSnoc` | src/Venalio/Redis/Caching/Storage/RedisStorage.php:84-91 | Collecting one more key either completes the buffer into a page (and empties it) or extends the buffer, which stays shorter than a page. |
| `Batching.LeftoverIsRemainder` | src/Venalio/Redis/Caching/Storage/RedisStorage.php:79-93 | The buffer left at the end holds `total mod itemsPerPage` keys. |
| `Caching.CleanLeavesPartialPage` | src/Venalio/Redis/Caching/Storage/RedisStorage.php:79-93 | Example: three keys tagged `promo` with page size 2. One `DEL` of the first two is sent, and the third is never deleted. |
| `Caching.RedisStorage.CleanFlushingRemainder` | src/Venalio/Redis/Caching/Storage/RedisStorage.php:70-95 | Corrected sweep: the same deletes plus one `DEL` of the final partial page, so every collected key is removed. |
| `Serialization.UnserializeSerialize` | src/Venalio/Redis/Caching/Storage/RedisStorage.php:102-110 | Decoding undoes encoding, and an encoded payload is never falsy. |
| `Serialization.SerializeUnserialize` | src/Venalio/Redis/Caching/Storage/RedisStorage.php:102-110 | Every payload that decodes is the encoding of its decoded value. |
| `Php.ExplodeImplode` | src/Venalio/Redis/Caching/Storage/RedisStorage.php:43 | `implode('#', …)` of a non-empty list of `#`-free tags is undone by `explode('#', …)`. |
| `KeyValue.Client.Execute` | src/Venalio/Redis/RedisClient.php:84-97 | Sends the command (the forwarding at line 90) and records it in the ghost trace of commands sent. The store becomes the command's effect, or stays as it was when the server refuses it. |
| `DI.LoadConfiguration` | src/Venalio/Redis/DI/RedisExtension.php:44-85 | Fails exactly when no connection is named `default` (connection entries are never NULL here). Otherwise it gives one client definition per connection, in input order, each carrying the name, normalised URI and options. Only `default` is autowired. |
| `DI.NormalizeConnection` | src/Venalio/Redis/DI/RedisExtension.php:54-69 | The normalised URI is never a one-element array and keeps the cluster status. A cluster always has a `cluster` option. A prefix is kept, and after normalisation it ends in `:`. |
| `DI.NormalizeUriCases` | src/Venalio/Redis/DI/RedisExtension.php:54-61 | A one-element URI array becomes its address and is not a cluster. Any other array, empty included, is a cluster and is kept. |
| `DI.NormalizeOptionsCases` | src/Venalio/Redis/DI/RedisExtension.php:63-69 | For a cluster, `cluster` defaults to `'redis'` and a given value is kept. A prefix gains `:` unless it ends in one. No other option changes. |
| `DI.NormalizeIdempotent` | src/Venalio/Redis/DI/RedisExtension.php:54-69 | Normalising twice equals normalising once. |
| `DI.NormalizedPrefixIsStripped` | src/Venalio/Redis/DI/RedisExtension.php:67-69 | A normalised prefix is truthy, so the storage's sweep strips it from every scanned key. |
| `DI.RegisterSessionHandler` | src/Venalio/Redis/DI/RedisExtension.php:136-152 | No enabling connection: no handler. One: that connection's handler. Two or more: failure naming the first two enabling connections. Connections with `sessions` FALSE are skipped. |
| `DI.SessionHandlersPrefix` | src/Venalio/Redis/DI/RedisExtension.php:138-152 | The handlers asked for by the first `j` connections are a prefix of those asked for by all of them. |
| `DI.SessionHandlersExact` | src/Venalio/Redis/DI/RedisExtension.php:138-145 | Exactly the connections whose `sessions` is not FALSE ask for a handler. |
| `DI.SessionConfigDefaults` | src/Venalio/Redis/DI/RedisExtension.php:163-167 | `sessions === TRUE` yields the default session config (`ttl` NULL). An array yields its own `ttl`. |

## Left out

- Network I/O and the Predis client. Redis is a map from physical key to entry. Glob matching of `*#tag*` is not modelled: the keys a scan returns are a given function of the pattern, and deletions during a scan do not change them.
- Time. `time()` is the parameter `now`. Time does not pass inside the backend, so TTL and deadline expiry after a write are not modelled. The server's clock equals `now`.
- PHP `serialize`/`unserialize`. A small codec over NULL, booleans and strings stands in for them. A payload that does not decode is treated as `unserialize` throwing; without an error handler that turns notices into exceptions, PHP would return FALSE instead.
- Dependency values. `EXPIRATION` is the integer `(int)` gives. `SLIDING` is three-valued: unset, TRUE, or any other value. Tags, names and option values are strings.
- `lock`: a no-op in the source, so it has no model.
- Atomicity. The `SET` + `EXPIREAT` pair is two separate commands, and a crash between them is not modelled.
- `RedisClient`'s panel forwarding, the `CustomSessionHandler` session handler, and the Tracy `RedisPanel`.
- Container calls: `addDefinition`, `setAutowired`, `addSetup`, `beforeCompileStorage`, `afterCompile` and the debug panel wiring. Also left out: `validateConfig` default merging, `Validators::assert`, and the check that a Session service exists. The input connections already have their defaults merged.
- DI.LoadConfiguration: connection entries are always configurations, never NULL. In the source, a `default` entry whose value is NULL fails the `isset` test at RedisExtension.php:44 and is rejected like a missing one; the model cannot express that input. A URI array is a list here, so a one-element URI array whose only key is not 0 (for which `$uri[0]` gives NULL at RedisExtension.php:58) is not modelled either; `NormalizeUri` takes the sole element.
- DI.RegisterSessionHandler: in the source, the first connection's handler is registered before the second enabling connection raises the error. The model only returns the error.
- PHP arrays cannot repeat a key. Connection names are a sequence here, and nothing depends on them being distinct.

## Findings

| source | as written | input that shows it | evidently intended | confidence | as-written member | corrected member |
|---|---|---|---|---|---|---|
| src/Venalio/Redis/Caching/Storage/RedisStorage.php:79-93 | The buffer is deleted only when it holds exactly one page. The partial page left after the last tag is never deleted. | Tags `["promo"]`, `ITEMS` 2, scan yields `a#promo`, `b#promo`, `c#promo`. Only `DEL [a#promo, b#promo]` is sent, and `c#promo` survives the clean. | Delete the remaining buffer after the loops, so every matched key is removed. | medium, not executed | `Caching.CleanLeavesPartialPage` | `Caching.RedisStorage.CleanFlushingRemainder` |
