# go-cache and go-web, modelled in Dafny

This project models the core of two small Go programs from the
"seven days" series.

**go-cache** is a distributed cache in the style of groupcache:

- two LRU stores: one bounded by entry count (day 1) and one bounded by bytes (day 2);
- `ByteView`, an immutable view of cached bytes;
- the `Group` namespace, which answers from its store, from the peer owning a key, or from a local loader (day 3 and day 6);
- the consistent hash ring that picks the owning peer;
- the HTTP pool that serves `/_geecache/<group>/<key>` and fetches from remote peers (day 7).

**go-web** is a small web framework:

- the exact-match router (day 2);
- the trie router with `:name` and `*name` parameters (day 3 and day 5);
- the engine with route groups, prefix-selected middlewares and a template function map (day 4 to day 6).

Code that changes state in place is modelled as classes. These are the stores, groups, the registry, the ring, the pool, the routers and the engine. Each method states its whole new state in its postcondition and preserves a `Valid()` invariant. The pure logic is written as functions, with lemmas relating them:

- eviction;
- sizes;
- sorting and ring layout;
- path routing and parameter binding;
- load decisions.

Functions of the Go runtime and libraries that the core calls are passed in as parameters:

- `crc32.ChecksumIEEE`;
- the URL escaping of the client (`ClientGet` takes it as a parameter; `url.QueryEscape`, `url.PathEscape` and the server's path decoding are also modelled concretely, in `UrlEscape`);
- `proto.Marshal` and `proto.Unmarshal`;
- `http.Get`;
- the trie's `search`.

Calls to `OnEvicted` are modelled as a log of the calls. Calls to the getter and to peers are recorded in ghost logs.

Modules and files:

| file | module | models |
|---|---|---|
| `wrappers.dfy` | `Wrappers` | `Option`, `Result` (Go's `(value, error)`), `Outcome` (a return or a panic) |
| `text.dfy` | `Text` | `strings.Split`/`Join`/`SplitN(…, 2)` and `strconv.Itoa` |
| `byteview.dfy` | `ByteViews` | `byteview.go` |
| `entry_list.dfy` | `EntryList` | the recency list and key index shared by both LRUs |
| `lru_bytes.dfy` | `ByteLru` | day 2 `lru.go` |
| `lru_entries.dfy` | `EntryLru` | day 1 `lru.go` |
| `consistent_hash.dfy` | `ConsistentHash` | `consistenthash.go` |
| `group.dfy` | `GroupCache` | day 6 `gencache.go` |
| `local_group.dfy` | `LocalGroupCache` | day 3 `gencache.go` and its test |
| `url_escape.dfy` | `UrlEscape` | `url.QueryEscape`, `url.PathEscape` and the request-path decoding of Go's HTTP server |
| `http_pool.dfy` | `HttpPool` | day 7 `http.go` |
| `routes.dfy` | `Routes` | `parsePattern`, `routeKey` and parameter binding of the trie routers |
| `trie_router.dfy` | `TrieRouter` | day 3 and day 5 `router.go` |
| `exact_router.dfy` | `ExactRouter` | day 2 `router.go` |
| `engine.dfy` | `WebEngine` | day 4, day 5 and day 6 `gen.go` |

Behaviour of the code that the model keeps, including its odd cases:

- In the day 2 store, updating an existing key applies the byte delta and returns early (`lru.go:47-52`). So only an insert evicts, and an update can leave `nbytes` above `maxBytes`.
- The day 1 store's `Get` does not move the entry to the front, so its "oldest" entry is the one least recently added or updated.
- `Clear` in the day 2 store also resets `maxBytes` to 0, so afterwards there is no budget.
- On a collision of ring positions, the node added later owns the position.
- `PickPeer` never selects the pool's own node.

## Model

| member | source | states |
|---|---|---|
| Text.Split | go-web/day5-middlewares/gen/router.go:22 | `strings.Split` yields at least one piece, and no piece contains the separator |
| Text.Cut | go-cache/day7-protobuf/gencache/http.go:51-52 | `SplitN(s, "/", 2)` has two parts exactly when `/` occurs; the parts are the text before the first `/` and everything after it |
| Text.CutAt | go-cache/day7-protobuf/gencache/http.go:51-58 | text without the separator, then a separator, then anything, splits back into exactly those two parts |
| Text.JoinSplit | go-web/day5-middlewares/gen/router.go:22 | joining the pieces of `strings.Split` gives back the string |
| Text.SplitJoin | go-web/day5-middlewares/gen/router.go:22 | splitting a join of separator-free pieces gives back the pieces |
| Text.Itoa | go-cache/day6-single-flight/gencache/consistenthash/consistenthash.go:33 | `strconv.Itoa` of a non-negative number is a non-empty string of decimal digits |
| Text.ItoaValue | go-cache/day6-single-flight/gencache/consistenthash/consistenthash.go:33 | `strconv.Itoa(i)` is a decimal numeral whose value is `i` |
| Text.ItoaInjective | go-cache/day6-single-flight/gencache/consistenthash/consistenthash.go:33 | distinct replica numbers give distinct numerals |
| ByteViews.ByteView.Len | go-cache/day2-single-node/gencache/byteview.go:17-22 | the length of the non-nil slice, else of the string; equals the content length |
| ByteViews.ByteView.At | go-cache/day2-single-node/gencache/byteview.go:41-46 | the `i`-th byte of the content, for `0 <= i < Len()` |
| ByteViews.ByteView.Slice | go-cache/day2-single-node/gencache/byteview.go:49-54 | a view of `content[from:to]` in the same representation |
| ByteViews.ByteView.SliceFrom | go-cache/day2-single-node/gencache/byteview.go:57-62 | a view of `content[from:]` in the same representation |
| ByteViews.OfBytes | go-cache/day2-single-node/gencache/byteview.go:11-14 | `ByteView{b: bytes}` has content `bytes` and length `len(bytes)` |
| ByteViews.ViewLen | go-cache/day2-single-node/gencache/byteview.go:17-22 | the size the store charges for a view is the length of its content |
| ByteViews.OfString | go-cache/day2-single-node/gencache/byteview.go:11-14 | `ByteView{s: str}` has content `str` and length `len(str)` |
| ByteViews.CloneBytes | go-cache/day2-single-node/gencache/byteview.go:27 | the clone holds exactly the bytes it was made from |
| ByteViews.ByteSlice | go-cache/day2-single-node/gencache/byteview.go:25-30 | a copy of exactly the content |
| ByteViews.String | go-cache/day2-single-node/gencache/byteview.go:33-38 | exactly the content, as a string |
| ByteViews.RepresentationIndependent | go-cache/day2-single-node/gencache/byteview.go:17-46 | a slice view and a string view of the same bytes agree on `ByteSlice`, `String` and every `At` |
| ByteViews.CompareBytes | go-cache/day2-single-node/gencache/byteview.go:89-94 | the byte loop answers true exactly when the two sequences are equal |
| ByteViews.EqualString | go-cache/day2-single-node/gencache/byteview.go:81-95 | true exactly when the view's content equals the string |
| ByteViews.EqualBytes | go-cache/day2-single-node/gencache/byteview.go:98-112 | true exactly when the view's content equals the bytes |
| ByteViews.Equal | go-cache/day2-single-node/gencache/byteview.go:73-78 | true exactly when the two contents are equal, whatever each representation is |
| ByteViews.Copy | go-cache/day2-single-node/gencache/byteview.go:65-70 | copies `min(len(dest), Len())` bytes of the content and leaves the rest of `dest` unchanged |
| ByteViews.ReadAt | go-cache/day2-single-node/gencache/byteview.go:123-135 | a negative offset is an error; an offset at or past the end is EOF with nothing read; otherwise a prefix of `p` receives the content from `off`, with EOF exactly when `p` is not filled |
| EntryList.IndexOf | go-cache/day2-single-node/gencache/lru/lru.go:64-65 | the map's element for a stored key is the first list position holding that key |
| EntryList.MapOfKeys | go-cache/day2-single-node/gencache/lru/lru.go:15-19 | the index has exactly the listed keys |
| EntryList.MapOfRemoveAt | go-cache/day2-single-node/gencache/lru/lru.go:96-99 | unlinking an element and deleting its key leaves the index of the remaining list |
| EntryList.RefreshIndex | go-cache/day2-single-node/gencache/lru/lru.go:47-52 | moving an entry to the front with a new value keeps keys distinct and updates only that key in the index |
| EntryList.SameIndexSameEntries | go-cache/day2-single-node/gencache/lru/lru.go:116-120 | two duplicate-free lists with the same index hold the same entries |
| ByteLru.SizeAppend | go-cache/day2-single-node/gencache/lru/lru.go:56 | the cost of a concatenation is the sum of the costs |
| ByteLru.SizeRemoveAt | go-cache/day2-single-node/gencache/lru/lru.go:100 | removing an entry subtracts exactly `len(key) + value.Len()` |
| ByteLru.SizeRefresh | go-cache/day2-single-node/gencache/lru/lru.go:50 | updating an entry changes the cost by the new length minus the old |
| ByteLru.EvictSplits | go-cache/day2-single-node/gencache/lru/lru.go:58-60 | eviction keeps a front part of the list and drops the rest from the back, in back-to-front order |
| ByteLru.EvictWithinBudget | go-cache/day2-single-node/gencache/lru/lru.go:58-60 | with a positive budget, what eviction keeps fits in the budget |
| ByteLru.EvictKeepsLongestFit | go-cache/day2-single-node/gencache/lru/lru.go:58-60 | eviction stops as soon as the budget is met: keeping one more entry would exceed it |
| ByteLru.EvictOversizedFront | go-cache/day2-single-node/gencache/lru/lru.go:58-60 | a front entry that alone exceeds the budget empties the store |
| ByteLru.EvictStep | go-cache/day2-single-node/gencache/lru/lru.go:58-60 | while over budget, one turn drops exactly the back entry |
| ByteLru.EvictStop | go-cache/day2-single-node/gencache/lru/lru.go:58 | within budget, or with no budget, nothing is evicted |
| ByteLru.Cache.New | go-cache/day2-single-node/gencache/lru/lru.go:32-39 | an empty, live store with the given budget and callback |
| ByteLru.Cache.RemoveElement | go-cache/day2-single-node/gencache/lru/lru.go:96-104 | unlinks the entry, deletes its key, subtracts its cost, notifies the callback if there is one |
| ByteLru.Cache.RemoveOldest | go-cache/day2-single-node/gencache/lru/lru.go:85-93 | drops the back entry, or does nothing on an empty or cleared store |
| ByteLru.Cache.Remove | go-cache/day2-single-node/gencache/lru/lru.go:75-82 | drops exactly the key's entry and frees its cost; an absent key changes nothing |
| ByteLru.Cache.Get | go-cache/day2-single-node/gencache/lru/lru.go:63-72 | a hit returns the stored value and moves its entry to the front; a miss changes nothing |
| ByteLru.Cache.Add | go-cache/day2-single-node/gencache/lru/lru.go:42-61 | an update moves the entry to the front with the byte delta and evicts nothing; an insert pushes in front, then evicts from the back and ends within a non-zero budget; the callback sees each eviction |
| ByteLru.Cache.EvictOverBudget | go-cache/day2-single-node/gencache/lru/lru.go:58-60 | the loop leaves exactly `Evict` of the list and notifies `Evicted` of it |
| ByteLru.Cache.Len | go-cache/day2-single-node/gencache/lru/lru.go:107-112 | the number of entries in the list and in the map |
| ByteLru.Cache.NotifyAll | go-cache/day2-single-node/gencache/lru/lru.go:116-121 | the callback receives every stored entry once, in some order |
| ByteLru.Cache.Clear | go-cache/day2-single-node/gencache/lru/lru.go:115-126 | every entry is reported once, in some order; then list, map, size and budget are cleared |
| EntryLru.AddNewWithinLimit | go-cache/day1-lru/gencache/lru/lru.go:47-51 | inserting a new key never breaks a positive entry limit that held before, and grows the list by one unless it was full |
| EntryLru.AddNewKeepsNewest | go-cache/day1-lru/gencache/lru/lru.go:47-51 | the new entry is in front, followed by the old entries in order, less at most the back one |
| EntryLru.Cache.New | go-cache/day1-lru/gencache/lru/lru.go:28-34 | an empty, live store with the given limit |
| EntryLru.Cache.RemoveElement | go-cache/day1-lru/gencache/lru/lru.go:86-93 | unlinks the entry, deletes its key, notifies the callback if there is one |
| EntryLru.Cache.RemoveOldest | go-cache/day1-lru/gencache/lru/lru.go:75-83 | drops the back entry, or does nothing on an empty or cleared store |
| EntryLru.Cache.Remove | go-cache/day1-lru/gencache/lru/lru.go:65-72 | drops exactly the key's entry; an absent key changes nothing |
| EntryLru.Cache.Get | go-cache/day1-lru/gencache/lru/lru.go:54-62 | a hit exactly for a stored key, returning its value; the store is not modified |
| EntryLru.Cache.Add | go-cache/day1-lru/gencache/lru/lru.go:37-52 | an update moves the entry to the front with the new value; an insert pushes in front and, if over a non-zero limit, drops the back entry and notifies the callback |
| EntryLru.Cache.Len | go-cache/day1-lru/gencache/lru/lru.go:96-101 | the number of entries in the list and in the map |
| EntryLru.Cache.NotifyAll | go-cache/day1-lru/gencache/lru/lru.go:105-110 | the callback receives every stored entry once, in some order |
| EntryLru.Cache.Clear | go-cache/day1-lru/gencache/lru/lru.go:104-113 | every entry is reported once; list and map are dropped; the limit stays |
| ConsistentHash.InsertSorted | go-cache/day6-single-flight/gencache/consistenthash/consistenthash.go:38 | one insertion step: a permutation with one more element, which is `x` in front or the old front |
| ConsistentHash.InsertSortedSorted | go-cache/day6-single-flight/gencache/consistenthash/consistenthash.go:38 | inserting into a sorted ring keeps it sorted |
| ConsistentHash.SortInts | go-cache/day6-single-flight/gencache/consistenthash/consistenthash.go:38 | `sort.Ints` yields an ascending permutation of its input |
| ConsistentHash.NodeHashes | go-cache/day6-single-flight/gencache/consistenthash/consistenthash.go:32-34 | one node contributes exactly `replicas` positions |
| ConsistentHash.NodeHashesAt | go-cache/day6-single-flight/gencache/consistenthash/consistenthash.go:32-34 | replica `i` of a node is `hash(Itoa(i) + node)` |
| ConsistentHash.VirtualKeysLength | go-cache/day6-single-flight/gencache/consistenthash/consistenthash.go:31-37 | `Add` appends exactly `replicas` positions per node |
| ConsistentHash.VirtualKeysAt | go-cache/day6-single-flight/gencache/consistenthash/consistenthash.go:31-37 | replica `i` of the `k`-th node is appended at offset `k * replicas + i` |
| ConsistentHash.AssignNodeFacts | go-cache/day6-single-flight/gencache/consistenthash/consistenthash.go:32-36 | one node's writes keep old positions, map each of its replica positions, and write only that node |
| ConsistentHash.AssignFacts | go-cache/day6-single-flight/gencache/consistenthash/consistenthash.go:30-37 | after `Add`, every appended position has an owner, every owner is new or was already there, and no position is lost |
| ConsistentHash.AssignLastWins | go-cache/day6-single-flight/gencache/consistenthash/consistenthash.go:35 | on a collision, the node added last owns the position |
| ConsistentHash.AssignNodeLastWins | go-cache/day6-single-flight/gencache/consistenthash/consistenthash.go:32-35 | each replica position of a node maps to that node after its writes |
| ConsistentHash.FirstAtLeast | go-cache/day6-single-flight/gencache/consistenthash/consistenthash.go:48-50 | the first index whose position is at least the hash, or the length when there is none |
| ConsistentHash.FirstAtLeastUnique | go-cache/day6-single-flight/gencache/consistenthash/consistenthash.go:48-50 | the index `sort.Search` returns is determined by its two properties |
| ConsistentHash.AddKeepsRing | go-cache/day6-single-flight/gencache/consistenthash/consistenthash.go:30-39 | after appending and re-sorting, every position has an owner and every owner is an old owner or a new node |
| ConsistentHash.Map.New | go-cache/day6-single-flight/gencache/consistenthash/consistenthash.go:18-28 | an empty ring using `fn`, or CRC-32 IEEE when `fn` is nil |
| ConsistentHash.Map.AddReplicas | go-cache/day6-single-flight/gencache/consistenthash/consistenthash.go:32-36 | the inner loop appends one node's replica positions in order and records the node as their owner |
| ConsistentHash.Map.AddNodes | go-cache/day6-single-flight/gencache/consistenthash/consistenthash.go:31-37 | the outer loop appends every node's positions in argument order |
| ConsistentHash.Map.Add | go-cache/day6-single-flight/gencache/consistenthash/consistenthash.go:30-39 | the new ring is a sorted permutation of the old positions plus the new ones; the owner map has every write applied in order; the invariant holds |
| ConsistentHash.Map.Search | go-cache/day6-single-flight/gencache/consistenthash/consistenthash.go:48-50 | the binary search returns the first index at or after the hash |
| ConsistentHash.Map.Get | go-cache/day6-single-flight/gencache/consistenthash/consistenthash.go:41-53 | `""` on an empty ring; otherwise the owner of the first position at or after the key's hash, wrapping to the first position, and always an added node |
| GroupCache.Load | go-cache/day6-single-flight/gencache/gencache.go:84-104 | the peer's bytes exactly when a picker exists, picks a peer and that peer answers; otherwise the getter's bytes or its error |
| GroupCache.Group.constructor | go-cache/day6-single-flight/gencache/gencache.go:45-50 | a group with an empty store of `cacheBytes`, the getter and no peers |
| GroupCache.Group.RegisterPeers | go-cache/day6-single-flight/gencache/gencache.go:62-67 | sets the picker once; a second call panics and keeps the first picker |
| GroupCache.Group.GetFromPeer | go-cache/day6-single-flight/gencache/gencache.go:107-113 | asks the peer for `(group, key)` once; returns its bytes as a slice view, or its error |
| GroupCache.Group.PopulateCache | go-cache/day6-single-flight/gencache/gencache.go:128-130 | the store after `Add(key, value)` |
| GroupCache.Group.GetLocally | go-cache/day6-single-flight/gencache/gencache.go:116-125 | calls the getter once; on success caches and returns a clone, on failure returns the error and caches nothing |
| GroupCache.Group.LoadKey | go-cache/day6-single-flight/gencache/gencache.go:84-104 | follows `Load`: a peer answer is returned uncached; otherwise the key is loaded locally (cached on success); peers are asked only when one is picked |
| GroupCache.Group.Get | go-cache/day6-single-flight/gencache/gencache.go:70-81 | the empty key fails with "key is required" and loads nothing; a hit is served from the store, refreshed, and loads nothing; a miss is loaded as `Load` decides: a peer answer or a getter failure leaves the store and its recency order as they were, a getter success is inserted with eviction, and a peer is asked exactly when one is picked |
| GroupCache.Registry.constructor | go-cache/day6-single-flight/gencache/gencache.go:32-35 | no groups |
| GroupCache.Registry.NewGroup | go-cache/day6-single-flight/gencache/gencache.go:37-52 | a nil getter panics with "nil Getter"; otherwise a fresh valid group replaces any group of that name |
| GroupCache.Registry.GetGroup | go-cache/day6-single-flight/gencache/gencache.go:54-59 | the group registered under the name, or nil |
| LocalGroupCache.Group.constructor | go-cache/day3-http-server/gencache/gencache.go:42-46 | a group with an empty store of `cacheBytes` and the getter |
| LocalGroupCache.Group.PopulateCache | go-cache/day3-http-server/gencache/gencache.go:89-91 | the store after `Add(key, value)` |
| LocalGroupCache.Group.GetLocally | go-cache/day3-http-server/gencache/gencache.go:72-86 | calls the getter once; on success caches and returns a clone, on failure returns the error |
| LocalGroupCache.Group.Get | go-cache/day3-http-server/gencache/gencache.go:58-69 | the empty key fails; a hit is served from the store without calling the getter; a miss calls the getter once |
| LocalGroupCache.Registry.NewGroup | go-cache/day3-http-server/gencache/gencache.go:34-48 | a nil getter panics; otherwise a fresh empty group is registered under the name |
| LocalGroupCache.Registry.GetGroup | go-cache/day3-http-server/gencache/gencache.go:50-55 | the group registered under the name, or nil |
| LocalGroupCache.LoadFits | go-cache/day3-http-server/gencache/gencache_test.go:29 | a new value that fits in the budget with what is stored is kept and nothing is evicted |
| LocalGroupCache.GetTwice | go-cache/day3-http-server/gencache/gencache_test.go:43-48 | the first `Get` of a stored score loads it, and the second is served from the store with the same value; the database is asked once |
| LocalGroupCache.GetMissing | go-cache/day3-http-server/gencache/gencache_test.go:51-53 | a key the database does not hold yields the error "`<key>` not exist" |
| LocalGroupCache.LoadScores | go-cache/day3-http-server/gencache/gencache_test.go:42-49 | every score is loaded once with its value, and the database is asked exactly once per key |
| LocalGroupCache.TestGet | go-cache/day3-http-server/gencache/gencache_test.go:27-54 | "630", "589" and "567" are read back, the second reads equal the first, the unknown key fails, and each key reaches the database once |
| LocalGroupCache.TestGetGroup | go-cache/day3-http-server/gencache/gencache_test.go:56-67 | a registered group is found under its name, and an unregistered name finds nothing |
| HttpPool.RouteOf | go-cache/day7-protobuf/gencache/http.go:45-58 | an unexpected path exactly when the base path is not a prefix; a bad request exactly when no `/` follows it; otherwise the group (without `/`) and the key |
| HttpPool.RouteOfRequestPath | go-cache/day7-protobuf/gencache/http.go:51-58 | every base path + group + `/` + key routes to exactly that group and key |
| HttpPool.Respond | go-cache/day7-protobuf/gencache/http.go:65-79 | a lookup error or encoding error is a 500 with its text; otherwise the encoded value as `application/octet-stream` |
| HttpPool.RequestURL | go-cache/day7-protobuf/gencache/http.go:113-118 | the URL is the base URL, the escaped group, `/`, and the escaped key |
| HttpPool.ClientGet | go-cache/day7-protobuf/gencache/http.go:111-143 | transport errors are passed on; a non-200 status, a read failure and a decode failure each get their error text; otherwise the decoded value |
| UrlEscape.HexValue | go-cache/day7-protobuf/gencache/http.go:45 | a hexadecimal digit of either case has a value below 16 |
| UrlEscape.QueryEscape | go-cache/day7-protobuf/gencache/http.go:116-117 | `url.QueryEscape`: never shorter than its input; decoded by `UnescapeQueryEscape` |
| UrlEscape.PathEscapeNoSlash | go-cache/day7-protobuf/gencache/http.go:113-118 | a path-escaped string holds no `/` |
| UrlEscape.PathEscape | go-cache/day7-protobuf/gencache/http.go:116-117 | `url.PathEscape`, the corrected client's escaping: never shorter than its input; decoded by `UnescapePathEscape` |
| UrlEscape.HexDigit | go-cache/day7-protobuf/gencache/http.go:116-117 | the digit written for `d` reads back as `d` |
| UrlEscape.PercentEncode | go-cache/day7-protobuf/gencache/http.go:116-117 | `%XX` whose two digits read back as the byte |
| UrlEscape.SpaceToPlus | go-cache/day7-protobuf/gencache/http.go:116-117 | same length; every space becomes `+`, every other byte stays |
| UrlEscape.SpaceFreeUnchanged | go-cache/day7-protobuf/gencache/http.go:116-117 | text without spaces comes back from the server unchanged |
| UrlEscape.SpacedExample | go-cache/day7-protobuf/gencache/http.go:116-117 | `"a b"` comes back as `"a+b"` |
| UrlEscape.UnescapePlain | go-cache/day7-protobuf/gencache/http.go:45 | the server's decoding leaves text without `%` unchanged |
| UrlEscape.UnescapeEncoded | go-cache/day7-protobuf/gencache/http.go:45 | the server's decoding turns `%XX` back into its byte |
| UrlEscape.UnescapeQueryByte | go-cache/day7-protobuf/gencache/http.go:116-117 | one `url.QueryEscape`d byte decodes to itself, or to `+` for a space |
| UrlEscape.UnescapePathByte | go-cache/day7-protobuf/gencache/http.go:116-117 | one `url.PathEscape`d byte decodes to itself |
| UrlEscape.UnescapeQueryEscape | go-cache/day7-protobuf/gencache/http.go:116-117 | decoding a `url.QueryEscape`d string on the server yields the string with spaces turned into `+` |
| UrlEscape.UnescapePathEscape | go-cache/day7-protobuf/gencache/http.go:116-117 | decoding a `url.PathEscape`d string on the server yields exactly the string |
| UrlEscape.DecodeRequestPath | go-cache/day7-protobuf/gencache/http.go:113-118 | a request path decodes piece by piece: base path, group, `/`, key |
| UrlEscape.DecodeQueryEscaped | go-cache/day7-protobuf/gencache/http.go:116-117 | a query-escaped string alone decodes with spaces turned into `+` |
| UrlEscape.DecodePathEscaped | go-cache/day7-protobuf/gencache/http.go:116-117 | a path-escaped string alone decodes to itself |
| UrlEscape.DecodeQueryEscapedPath | go-cache/day7-protobuf/gencache/http.go:113-118 | the request path the client builds decodes to the base path, the group and the key, with spaces turned into `+` |
| UrlEscape.DecodePathEscapedPath | go-cache/day7-protobuf/gencache/http.go:113-118 | with path escaping, the request path decodes to exactly the base path, the group and the key |
| HttpPool.ServerPath | go-cache/day7-protobuf/gencache/http.go:45 | the client's URL is the peer, then the base path, the escaped group, `/`, and the escaped key; the server sees that path decoded |
| HttpPool.QueryEscapedRoute | go-cache/day7-protobuf/gencache/http.go:45-58 | as written: a request for `(group, key)` is routed by the peer to the group and the key with every space turned into `+` |
| HttpPool.SpacedKeyMisrouted | go-cache/day7-protobuf/gencache/http.go:113-118 | asking for key `"a b"` of `"scores"` makes the peer look up `"a+b"`, not `"a b"` |
| HttpPool.ClientPathRoutes | go-cache/day7-protobuf/gencache/http.go:45-58 | with a path-escaping client and a group name without `/`, a request for `(group, key)` is routed by the peer to exactly that group and key |
| HttpPool.SlashedGroupMisrouted | go-cache/day7-protobuf/gencache/http.go:45-58 | group `"a/b"` with key `"k"` is looked up as group `"a"` with key `"b/k"`, whether the client escapes with `url.QueryEscape` or `url.PathEscape` |
| HttpPool.RawPath | go-cache/day7-protobuf/gencache/http.go:113-118 | the path of the client's URL before decoding; the server's decoded path is its decoding |
| HttpPool.RouteOfEscaped | go-cache/day7-protobuf/gencache/http.go:45-58 | corrected split on the escaped path: the same prefix check and 400 case as `RouteOf` on that path, with group and key decoded after the split |
| HttpPool.ClientEscapedRoutes | go-cache/day7-protobuf/gencache/http.go:45-58 | a path-escaping client and a server that splits before decoding agree on every group and key, `/` and spaces included |
| HttpPool.HTTPPool.constructor | go-cache/day7-protobuf/gencache/http.go:31-36 | the pool of `self` with the default base path and no peers |
| HttpPool.HTTPPool.Set | go-cache/day7-protobuf/gencache/http.go:83-92 | a fresh ring of 50 replicas over exactly these peers, and a getter per peer at `peer + basePath` |
| HttpPool.HTTPPool.PickPeer | go-cache/day7-protobuf/gencache/http.go:95-104 | the getter of the key's ring owner, exactly when the owner is non-empty and not this node; never this node's own URL |
| HttpPool.HTTPPool.ServeHTTP | go-cache/day7-protobuf/gencache/http.go:43-80 | an unexpected path panics; a malformed path is 400; an unknown group is 404; otherwise the reply is built from the group's answer, which is the empty-key error, the stored value on a hit, and on a miss the peer's or the getter's bytes (or the getter's error) as `Load` decides; the group's store and its getter and peer logs end as `Group.Get` leaves them (a hit refreshed, a getter value inserted with eviction, a peer value or an error not cached), and every other registered group is unchanged |
| Routes.Keep | go-web/day5-middlewares/gen/router.go:24-32 | the kept parts are non-empty, only the last may start with `*`, and there are no more of them than pieces |
| Routes.ParsePattern | go-web/day5-middlewares/gen/router.go:21-34 | the loop returns exactly `PatternParts(pattern)` |
| Routes.PatternPartsShape | go-web/day5-middlewares/gen/router.go:21-34 | parts are non-empty and free of `/`, and only the last may be a wildcard |
| Routes.KeepWithoutWildcard | go-web/day5-middlewares/gen/router.go:25-31 | without a `*` piece, parsing keeps exactly the non-empty pieces in order |
| Routes.ParseJoined | go-web/day5-middlewares/gen/router.go:21-34 | parsing `"/" + join(parts, "/")` gives back well-formed parts |
| Routes.RouteKey | go-web/day5-middlewares/gen/router.go:49-51 | the key is method, `-`, pattern |
| Routes.RouteKeyInjective | go-web/day5-middlewares/gen/router.go:49-51 | for methods without `-`, distinct method/pattern pairs have distinct keys |
| Routes.Limit | go-web/day5-middlewares/gen/router.go:66-75 | the binding loop visits the parts up to and including the first `*name`, or all of them |
| Routes.BindParams | go-web/day5-middlewares/gen/router.go:65-75 | the loop returns exactly `Params(parts, searchParts)` |
| Routes.BoundValues | go-web/day5-middlewares/gen/router.go:66-75 | with distinct names, every visited binding part is bound to its value and nothing else is bound |
| Routes.ColonBinds | go-web/day5-middlewares/gen/router.go:67-69 | a visited `:name` binds the path part at its index |
| Routes.WildcardBinds | go-web/day5-middlewares/gen/router.go:71-74 | `*name` binds the rest of the path joined with `/` and is the last part visited |
| TrieRouter.Router.constructor | go-web/day5-middlewares/gen/router.go:13-18 | no roots and no handlers |
| TrieRouter.Router.AddRoute | go-web/day5-middlewares/gen/router.go:37-46 | the pattern is inserted under its method (creating the root) and the handler stored under the route key |
| TrieRouter.Router.GetRoute | go-web/day5-middlewares/gen/router.go:54-78 | nil for an unknown method; otherwise the trie's answer and, for a match, the parameters bound from the path |
| TrieRouter.Router.Handle | go-web/day3-router/gen/router.go:76-85 | runs exactly the matched route's handler with its parameters, else 404 "404 NOT FOUND: path" |
| TrieRouter.Router.HandleChain | go-web/day5-middlewares/gen/router.go:91-102 | appends the matched route's handler after the middlewares (setting the parameters), or the 404 handler |
| ExactRouter.Router.constructor | go-web/day2-context/gen/router.go:9-11 | no handlers |
| ExactRouter.Router.AddRoute | go-web/day2-context/gen/router.go:13-15 | stores the handler under `method-pattern`, overwriting |
| ExactRouter.Router.Handle | go-web/day2-context/gen/router.go:21-27 | the handler under exactly `method-path`, else 404 with the path |
| ExactRouter.RegisteredIsServed | go-web/day2-context/gen/router.go:13-27 | a registered route is served for its method and answered 404 for any other method |
| ExactRouter.NoPatternMatching | go-web/day2-context/gen/router.go:21-27 | with only `/hello/:name` registered, a request for `/hello/geektutu` is answered 404: the day 2 router matches keys exactly |
| WebEngine.RouterGroup.constructor | go-web/day6-template/gen/gen.go:18-23 | a group with the prefix, parent and engine, and no middlewares |
| WebEngine.RouterGroup.Group | go-web/day6-template/gen/gen.go:51-60 | a child whose prefix extends the parent's, appended to the engine's groups |
| WebEngine.RouterGroup.Use | go-web/day6-template/gen/gen.go:70-72 | appends the middlewares to this group only, in order |
| WebEngine.RouterGroup.AddRoute | go-web/day6-template/gen/gen.go:63-67 | registers `prefix + comp` with the engine's router |
| WebEngine.RouterGroup.Get | go-web/day6-template/gen/gen.go:97-99 | registers a GET route: the handler under its route key, and `prefix + comp` in the GET trie |
| WebEngine.RouterGroup.Post | go-web/day6-template/gen/gen.go:102-104 | registers a POST route: the handler under its route key, and `prefix + comp` in the POST trie |
| WebEngine.SelectedStartsWithRoot | go-web/day6-template/gen/gen.go:113-119 | the root group's middlewares always come first in a request's chain |
| WebEngine.SelectedOnlyRoot | go-web/day6-template/gen/gen.go:114-119 | when no group but the root has a prefix starting the path, only the root's middlewares are selected |
| WebEngine.Engine.New | go-web/day6-template/gen/gen.go:36-41 | an engine whose only group is the root, with an empty router |
| WebEngine.Default | go-web/day6-template/gen/gen.go:44-48 | `New` with the logger as the only root middleware: no routes and no template functions |
| WebEngine.Engine.ServeHTTP | go-web/day6-template/gen/gen.go:112-124 | the chain is the middlewares of every group whose prefix starts the path, in group order, then the route's handler or the 404 handler; the context records the engine |
| WebEngine.Engine.SetFuncMap | go-web/day6-template/gen/gen.go:127-129 | stores the function map |

## Left out

- Mutexes (`sync.Mutex`, `sync.RWMutex`) and concurrency: every operation is modelled as running alone.
- `singleflight` (`loader.Do`): `load` runs its function directly, which is what one caller alone observes.
- Logging (`log.Printf`, `p.Log`, the day 3 router's `fmt.Printf`): no effect on state.
- int64 and int width: counts and sizes are unbounded integers, so overflow of `nbytes` is not modelled. The `uint32` hash is widened to `int` as on 64-bit Go, where no wrap-around occurs.
- ByteLru.Cache.New: requires `maxBytes >= 0`. With a negative budget, the eviction loop of `Add` (lru.go:58-60) never ends once the list is empty, and a terminating method cannot model that.
- GroupCache.Registry.NewGroup: requires `cacheBytes >= 0`, for the same reason, since the budget is handed to the store. LocalGroupCache.Registry.NewGroup requires the same.
- The `cache` wrapper of `gencache`: `cache.go` (`add`/`get`, with lazy creation of the LRU) is not part of this model. The group's store is created eagerly, which answers the same as a lazily created empty one.
- `cloneBytes` is not part of this model. It is modelled as a copy of equal content.
- `GetterFunc.Get` and `TestGetter`: a `Getter` is modelled as a function value, so the adapter is plain application.
- `ByteView.Reader` and `ByteView.WriteTo`: `io` types are not modelled.
- Day 7 `gencache.go` is not part of this model. `HTTPPool.ServeHTTP` uses the day 6 `Group` and registry.
- Functions passed in as parameters: `crc32.ChecksumIEEE`, the client's escaping, `proto.Marshal`/`proto.Unmarshal` (as functions on the value bytes), `http.Get` and `ioutil.ReadAll` (as one `get` result).
- HttpPool.QueryEscapedRoute: stated only for group names without `/`. A `/` in a group name is written as `%2F`, decoded back by the server before the split, and misrouted; the second Findings row records it.
- HttpPool.ClientPathRoutes: stated only for group names without `/`, for the same reason. `HttpPool.ClientEscapedRoutes` covers every group name, with the server splitting before it decodes.
- HttpPool.HTTPPool.PickPeer: requires that `Set` ran. Before that, Go dereferences a nil ring and panics.
- URL decoding of malformed `%` escapes, which Go's server rejects before `ServeHTTP` runs: `PathUnescape` keeps them as they are. The client never produces them.
- `url.QueryEscape` and `url.PathEscape` on bytes beyond ASCII: escaped as `%XX` like any other reserved byte. Characters wider than one byte do not occur, since a Go string is bytes here.
- The HTTP response writer and headers: a reply is a `Reply` value.
- `trie.go` (`node.insert`, `node.search`, `node.travel`) is not part of this model. Each method's trie is the set of patterns inserted for it, and `search` is a parameter that answers with one of them (`TrieAnswers`). As a result, `getRoutes` is not modelled either.
- `Context` beyond its routing fields: `Next`, `String`, writers and the running of handlers are not modelled. The day 3 `handle` returns which handler it would run, or the 404 reply, and the day 5 `handle` builds the chain that `c.Next()` would run.
- Day 4 and day 5 `ServeHTTP` differ from day 6 only in what they put in the context. Day 4 has no middleware selection; its router is not part of this model. Day 5 does not record the engine. Only the day 6 version is modelled.
- `Static`, `createStaticHandler`, `LoadHTMLGlob`, `Run` and `Logger`'s body: files, templates and listening are I/O. The logger is a handler value.
- LocalGroupCache.TestGet: Go ranges over the database map in an unspecified order. The model visits Tom, Jack and Sam in that order. `TestMapDel` only logs and is not modelled.
- Removing a node from the ring is not an operation of the source, so how stable the key-to-node assignment is under removal is not modelled.

## Findings

| source | as written | input that shows it | evidently intended | confidence | as-written member | corrected member |
|---|---|---|---|---|---|---|
| go-cache/day7-protobuf/gencache/http.go:113-118 | the client escapes the group and the key with `url.QueryEscape`, which writes a space as `+`; the server splits `r.URL.Path` (http.go:45-52), whose decoding keeps `+` | group `"scores"`, key `"a b"`: the peer looks up key `"a+b"` | the peer looks up exactly the key it was asked for, for instance by escaping with `url.PathEscape` (for group names without `/`; see the next row) | not executed | HttpPool.SpacedKeyMisrouted | HttpPool.ClientPathRoutes |
| go-cache/day7-protobuf/gencache/http.go:45-58 | the server splits the decoded `r.URL.Path`; a group name holding `/`, which either escaping sends as `%2F`, is decoded back first, so `SplitN` splits inside the group name (`NewGroup`, gencache.go:37-52, accepts any name) | group `"a/b"`, key `"k"`: the peer looks up group `"a"` with key `"b/k"` | the peer looks up the group and the key it was asked for, for instance by splitting the escaped path and decoding each piece | not executed | HttpPool.SlashedGroupMisrouted | HttpPool.ClientEscapedRoutes |

The as-written behaviour is stated for every group name without `/` by `HttpPool.QueryEscapedRoute`. `ClientGet` is stated for any escaping function; the client that the rest of the model relies on when it connects a request to the peer's route is the path-escaping one of `HttpPool.ClientPathRoutes`.
