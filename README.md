# wgmik-server usage accounting, modelled in Dafny

wgmik-server meters the traffic of WireGuard peers on MikroTik RouterOS
routers. A background job (`_poll_once`) reads the cumulative rx/tx byte
counters of every selected peer, stores a raw sample per peer, and adds the
growth since the peer's previous sample to a daily row (key `YYYY-MM-DD`)
and a monthly row (key `YYYY-MM`). Around that sit two router adapters, one
for the REST interface and one for the binary API. They parse handshake
ages and booleans, filter peer listings by interface, pick a primary IPv4
address and extract the id of a newly added peer. A factory chooses the
adapter from the router's protocol. The HTTP handlers create and update
routers, overlay the settings table, flag online peers, import peers, serve
the raw and daily usage series, read and patch quotas, and reset a peer's
metrics.

The project models these parts:

- `wrappers.dfy`: `Option` and `Result`.
- `pyvalues.dfy`: the Python built-ins the code relies on, namely dynamic
  values and their truthiness, `str.strip`, ASCII `lower`, `isdigit`,
  `int(str)` and `str(int)`.
- `client_base.dfy`: the logic the two adapters share word for word.
  This covers `_parse_last_handshake`, `_parse_bool`, the row filter of
  `list_wireguard_peers`, the address choice of `get_primary_ipv4`, the
  add-peer payload and the id in a dict answer.
- `rest_client.dfy`, `api_client.dfy`: the parts of each adapter that
  differ. These are `_base`, the `set_peer_disabled` body, the id
  extraction with its fallback, and failure handling in `get_primary_ipv4`.
- `factory.dfy`: `make_client`, as the configuration it builds.
- `store.dfy`: the database as a class `Database` whose fields are the
  tables. The samples are a sequence in insertion order and the rollups are
  maps keyed by (peer, day) and (peer, month). The file also holds the
  specification functions of the rollups and the invariant `Valid`. That
  invariant says every daily and monthly row equals the usage its peer's
  samples attribute to that day or month, and each monthly row equals the
  sum of the month's daily rows.
- `scheduler.dfy`: `_poll_once` as a method on the database, plus
  `ensure_scheduler` and `update_scheduler_interval` as a class holding the
  job's interval.
- `http.dfy`: HTTP errors and the protocol whitelist.
- `routes_settings.dfy`, `routes_routers.dfy`, `routes_peers.dfy`,
  `routes_usage.dfy`, `routes_quota.dfy`: the handlers, as methods on the
  database.

Calls into code outside the model become parameters:

- the router's answer to a listing (`fetch`), which either fails or returns
  rows;
- the cipher (`encrypt`, `decrypt`);
- the IPv4 classification of `ip_network` (`classify`);
- the clock (`now`, an `Instant` carrying the UTC day it falls on).

Behaviours of the code the model follows:

- A counter that went down gives a delta of 0 (backend/scheduler.py:79-82).
  It does not give the new value.
- Samples store the cumulative counters read, not deltas.
- The month of a monthly row is the calendar month of the UTC day. It is not
  a cycle anchored to the reset day.
- Quotas and time windows are stored and shown, but nothing enforces them.

Two behaviours of the code that the model makes explicit:

- The adapters' id fallbacks differ. For a listed row without an id, the
  REST adapter returns the empty id, while the binary-API adapter reports
  that no id was found (`ApiClient.AddedIdsDivergeOnBlankId`).
- In `import_peers`, two items that name the same new peer both add a row.
  The commit then fails on the unique key (router, interface, public key),
  and nothing is stored.

## Model

| member | source | states |
|---|---|---|
| PyValues.IntStrRoundTrip | backend/api/routes.py:148-154 | every integer stored with `str` reads back as itself with `int`, including negative ones |
| PyValues.IntStrInjective | backend/api/routes.py:692-693 | distinct peer ids give distinct `str` renderings, so distinct settings keys |
| ClientBase.ParseLastHandshake | backend/routeros/rest_client.py:104-127 | the accumulating loop returns what `LastHandshake` specifies: None for None, "", 0 and False; an integer as is; a stripped digit string as its value; otherwise the weighted sum of the number-unit matches, or None when that sum is 0 (the API copy at backend/routeros/api_client.py:29-52 is the same text) |
| ClientBase.HandshakeOfRenderedDuration | backend/routeros/rest_client.py:113-126 | a duration printed as amount-unit pairs parses to the sum of amount times 604800/86400/3600/60/1 per w/d/h/m/s, and to None when that sum is 0 |
| ClientBase.FindRenderedUnits | backend/routeros/rest_client.py:114 | the `(\d+)([wdhms])` scan finds exactly the pairs a duration was printed from, in order |
| ClientBase.HandshakeOfDigitText | backend/routeros/rest_client.py:110-112 | a string of digits reads as its decimal value |
| ClientBase.HandshakeExample | backend/routeros/rest_client.py:113-126 | "1w2d3h4m5s" reads as 788645 seconds |
| ClientBase.ZeroDurationIsNoHandshake | backend/routeros/rest_client.py:126 | a duration adding up to 0 ("0s") is no handshake (None), never 0 |
| ClientBase.PaddedZeroIsZero | backend/routeros/rest_client.py:110-112 | " 0 " strips to a digit string and reads as the integer 0, not as None |
| ClientBase.YesNoRoundTrip | backend/routeros/rest_client.py:129-142 | the "yes"/"no" words the adapters send for a flag parse back as that flag |
| ClientBase.YesIsTrue | backend/routeros/rest_client.py:137-139 | "yes" is in the true words and parses as true |
| ClientBase.NoIsFalse | backend/routeros/rest_client.py:137-141 | "no" is in none of the true words, is in the false words and parses as false |
| PyValues.StripPadded | backend/routeros/rest_client.py:137 | `strip` removes any run of whitespace on either side of a string that does not itself start or end with whitespace, and only that |
| ClientBase.ParseBoolWords | backend/routeros/rest_client.py:137-141 | for every whitespace padding and every case of its letters, a true word parses as true and a false word as false (the two lists share no word) |
| ClientBase.ParseBoolPadded | backend/routeros/rest_client.py:137-139 | example: " Yes " parses as true |
| ClientBase.ParseBoolUpperCase | backend/routeros/rest_client.py:137-141 | example: "OFF" parses as false |
| ClientBase.ParseBoolBlank | backend/routeros/rest_client.py:142 | a string that is no word falls back to its truthiness: "  " is true, "" is false |
| ClientBase.ListedPeersMatchRows | backend/routeros/rest_client.py:144-165 | the listing succeeds exactly when every row on the interface has integer rx and tx; it then holds one peer per such row, in order, built from that row; otherwise it fails as a bad counter (the API copy is backend/routeros/api_client.py:98-120) |
| ClientBase.ListedPeersOnInterface | backend/routeros/api_client.py:103-105 | every listed peer is on the requested interface |
| ClientBase.ListWireguardPeers | backend/routeros/rest_client.py:144-165 | a failed request is passed on; otherwise the appending loop returns the filtered, parsed listing |
| ClientBase.FirstHostIsFirst | backend/routeros/rest_client.py:85-101 | the host kept for a class is that of the earliest qualifying row, and it is "" exactly when no row qualifies |
| ClientBase.SelectPrimaryIPv4 | backend/routeros/rest_client.py:83-102 | the public/private loop returns the first public IPv4 host, else the first private one, else "" (the API copy is backend/routeros/api_client.py:200-219) |
| ClientBase.PeerOfPayload | backend/routeros/rest_client.py:187-197 | a payload with exactly the required keys, plus name when non-empty and disabled="yes" when set, lists back as the peer that was added |
| ClientBase.AddPeerPayload | backend/routeros/api_client.py:148-158 | interface, public-key and allowed-address are always sent as given; name and comment only when non-empty, as given; disabled only when true, as "yes"; nothing else; the payload lists back as the added peer |
| ClientBase.IdOfDict | backend/routeros/rest_client.py:199-202 | a non-empty string `ret` is the id; when `ret` is falsy, a non-empty string `.id` is the id; in every other case there is no id, and the id is never empty |
| RestClient.SchemeLetter | backend/routeros/rest_client.py:26-27 | the fifth character of the URL tells the two schemes apart |
| RestClient.BaseUrlInjective | backend/routeros/rest_client.py:26-27 | for one host, different ports or schemes never give the same URL |
| RestClient.SetDisabledPayload | backend/routeros/rest_client.py:171-175 | the body holds exactly `numbers` (the peer id) and `disabled`, the word "yes" or "no", which parses back as the flag |
| RestClient.FirstRosIdWithKeyIsFirst | backend/routeros/rest_client.py:204-206 | the fallback returns the id of the earliest re-listed peer with the key, and nothing only when no peer has it |
| RestClient.RestAddWireguardPeer | backend/routeros/rest_client.py:177-207 | the payload lists back as the added peer; the id is taken from a dict answer, else from the re-listing, and is an error when neither gives one |
| ApiClient.SetDisabledParams | backend/routeros/api_client.py:127-135 | the command holds exactly `.id` and `disabled`, the word "yes" or "no", which parses back as the flag |
| ApiClient.SetPayloadsAgree | backend/routeros/api_client.py:130 | both adapters send the same id and the same flag word, under `numbers` and `.id` respectively |
| ApiClient.FirstPrintedIdIsFirst | backend/routeros/api_client.py:172-177 | the fallback scan returns the non-empty id of the earliest printed row with both the interface and the key, and nothing only when there is none |
| ApiClient.ApiAddedIdNonEmpty | backend/routeros/api_client.py:160-178 | the binary-API adapter never returns an empty id |
| ApiClient.AddedIdsAgreeOnDictAnswer | backend/routeros/api_client.py:161-164 | on a dict answer naming the peer, both adapters return that id |
| ApiClient.AddedIdsDivergeOnBlankId | backend/routeros/api_client.py:171-178 | for a re-listed row without an id, the REST adapter returns "" and the binary-API adapter fails with no id |
| ApiClient.ApiAddWireguardPeer | backend/routeros/api_client.py:137-183 | the parameters list back as the added peer; the id comes from a dict answer, else from the first element of a list answer, else from the printed rows, and is an error otherwise |
| ApiClient.ApiPrimaryIPv4 | backend/routeros/api_client.py:195-225 | a failed print is passed on as an error; otherwise the public-before-private, first-wins host |
| RestClient.RestPrimaryIPv4 | backend/routeros/rest_client.py:77-102 | a failed listing gives ""; otherwise the public-before-private, first-wins host |
| Factory.MakeClient | backend/routeros/factory.py:8-32 | "rest" and "rest-http" choose the REST adapter, with https only for "rest" and the scheme fallback on; any other protocol chooses the binary API with TLS unless "api-plain", and certificate checks only with TLS and the router's flag; host, port and user pass through; an undecryptable secret gives "" |
| Factory.PasswordRoundTrip | backend/routeros/factory.py:10 | with a cipher whose decryption undoes its encryption, the adapter gets the stored password |
| Store.Clamp | backend/scheduler.py:76-82 | a counter's delta is cur - prev when cur >= prev and 0 otherwise, never negative |
| Store.HistoryWithoutPeer | backend/api/routes.py:664 | deleting one peer's samples empties its history and keeps every other peer's history |
| Store.AllUsageTelescopes | backend/scheduler.py:76-82 | over counters that never go down, the deltas of a history add up to the last reading minus the first |
| Store.DailyAfterSample | backend/scheduler.py:87-98 | upserting the new sample's delta into its day's row keeps every daily row equal to its peer's usage on that day |
| Store.MonthlyAfterSample | backend/scheduler.py:100-111 | the same for the month's row |
| Store.SumsAfterSample | backend/scheduler.py:84-111 | the day's and the month's rows get the same increment, so each monthly row stays the sum of its daily rows |
| Store.RollupsAfterSample | backend/scheduler.py:65-111 | recording a sample with its upserts preserves the rollup invariant |
| Store.RollupsAfterReset | backend/api/routes.py:664-666 | deleting all of one peer's samples and rows preserves the rollup invariant |
| Store.DailySumDropPeer | backend/api/routes.py:665 | deleting one peer's daily rows zeroes its monthly sums and keeps every other peer's |
| Store.RollupsMatchHistory | backend/scheduler.py:87-111 | in a valid database every daily and monthly row (or 0 when missing) is the usage of its peer's samples in that day or month |
| Store.MonthlyIsLastMinusFirst | backend/scheduler.py:100-111 | with non-decreasing counters and a month's samples, the monthly row and the sum of the month's daily rows both equal the last reading minus the first |
| Store.Database.PutRouter | backend/api/routes.py:258 | committing a router row under an issued id changes that row only and keeps the invariant |
| Store.Database.PutPeers | backend/api/routes.py:403 | committing a peer table with unique keys keeps the invariant |
| Scheduler.LiveByKeyIsLast | backend/scheduler.py:50-53 | the lookup by public key finds the last listed peer with the key, and nothing only when no listed peer has it |
| Scheduler.FirstSampleIsBaseline | backend/scheduler.py:76-85 | a peer's first sample creates and changes no rollup row |
| Scheduler.SampleMovesOwnBuckets | backend/scheduler.py:76-111 | a sample moves only its own peer's row for its day and for its month, by the same clamped rx and tx delta; with a zero delta nothing changes |
| Scheduler.RollupsWithReading | backend/scheduler.py:75-111 | the delta computation and the two upserts give the rollups `DailyAfter`/`MonthlyAfter` specify |
| Scheduler.RecordReading | backend/scheduler.py:65-111 | one reading appends exactly one sample with the cumulative counters and upserts both rollups, keeping the invariant |
| Scheduler.PollGroup | backend/scheduler.py:50-111 | within a listed group, each peer whose key is live gets exactly one sample and the others get nothing |
| Scheduler.GroupSelected | backend/scheduler.py:29-32 | the grouping holds every selected peer once, under its own (router, interface), and nothing else |
| Scheduler.PollRouterGroup | backend/scheduler.py:36-48 | a group whose router is missing or whose listing fails records nothing; the router cache only holds stored routers |
| Scheduler.PollOnce | backend/scheduler.py:16-115 | every selected peer with a known router, a successful listing and a live key gets exactly one sample; no other peer gets anything; the rollup invariant holds afterwards |
| Scheduler.PersistedIntervalRoundTrip | backend/scheduler.py:124-129 | a stored `str(n)` starts the job every n seconds when n > 0, and with the default otherwise |
| Scheduler.SchedulerState.EnsureScheduler | backend/scheduler.py:118-140 | the first call starts the job with the persisted interval when it is all digits and positive, else the default; later calls change nothing |
| Scheduler.SchedulerState.UpdateSchedulerInterval | backend/scheduler.py:143-158 | a positive interval replaces the running job's interval; before start, or with seconds <= 0, nothing changes |
| SettingsRoutes.GetSettings | backend/api/routes.py:108-142 | the overlay loop returns the runtime values with each persisted preference applied: booleans by the words 1/true/yes/on, integers only when `int` accepts them, the unit only when minutes/hours/days |
| SettingsRoutes.BoolStrReadBack | backend/api/routes.py:138 | `str(b)` of a boolean is read back as b |
| SettingsRoutes.SettingsRoundTrip | backend/api/routes.py:108-166 | reading the settings back after storing a document gives that document, except that a scope unit other than "minutes", "hours" or "days" reads back as "days" |
| SettingsRoutes.StoredIntervalStartsScheduler | backend/api/routes.py:148-154 | the stored poll interval is the one the scheduler starts with, when positive |
| SettingsRoutes.PutSettings | backend/api/routes.py:146-166 | every field is stored as `str`, the runtime settings take the document's values, and the job's interval is updated as `update_scheduler_interval` says |
| RouterRoutes.CreateRouter | backend/api/routes.py:209-225 | a protocol outside the four is a 400 and stores nothing; otherwise a new id holds the row with the encrypted password |
| RouterRoutes.UpdatedRouter | backend/api/routes.py:241-243 | an update fails with a 400 exactly when it names a protocol outside the four |
| RouterRoutes.EmptyUpdateKeepsRouter | backend/api/routes.py:241-257 | an update with no fields, or with only an empty password, leaves the router as it is |
| RouterRoutes.UpdateIdempotent | backend/api/routes.py:241-257 | applying an update twice, each time encrypting with a fresh cipher that round-trips, stores the same row as applying it once apart from the password token, which decrypts to the same password, so the same adapter is built |
| RouterRoutes.ClientPasswordAfterWrites | backend/api/routes.py:219 | after a create, or an update with a non-empty password, the adapter built for the router gets that password; other updates keep the one it had |
| RouterRoutes.ApplyUpdate | backend/api/routes.py:241-257 | the field-by-field assignments give `UpdatedRouter`: the protocol checked first, each given field replaced, the password re-encrypted only when non-empty |
| RouterRoutes.UpdateRouter | backend/api/routes.py:237-260 | an unknown id is a 404; a refused update stores nothing; otherwise only that router's row changes |
| PeerRoutes.OnlineOfDuration | backend/api/routes.py:335-338 | a printed handshake age makes the peer online exactly when its weighted sum is positive and at most the threshold |
| PeerRoutes.OnlineOfSeconds | backend/api/routes.py:335-338 | a handshake age of plain seconds makes the peer online exactly when it is positive and at most the threshold |
| PeerRoutes.NeverHandshakenIsOffline | backend/api/routes.py:335-338 | no handshake, "", 0, False, "0s" and " 0 " all leave the peer offline |
| PeerRoutes.PeerIdOf | backend/api/routes.py:340-346 | the id found is that of the stored peer with the (router, interface, key), and none is found only when no such peer exists |
| PeerRoutes.ListPeers | backend/api/routes.py:324-356 | an unknown router is a 404 and a failed listing a 502; otherwise the request succeeds with one entry per live peer, in order, on the interface, with the id of the stored peer with its key |
| PeerRoutes.Reselected | backend/api/routes.py:388-390 | an import changes no stored peer except its `selected` flag |
| PeerRoutes.WithRowsAt | backend/api/routes.py:391-402 | the new rows sit under fresh ids, in item order; every other id keeps its peer |
| PeerRoutes.NewRowsAreNew | backend/api/routes.py:383-401 | each new row belongs to the router, and no stored peer has its key |
| PeerRoutes.NewRowsCoverItems | backend/api/routes.py:378-402 | every item that is live but not stored has its row among the new rows |
| PeerRoutes.CommitKeepsKeysUnique | backend/api/routes.py:403 | when the new rows do not collide with each other, the committed table keeps its unique key |
| PeerRoutes.AddListing | backend/api/routes.py:375-376 | one listing pass maps (interface, key) to the last listed peer with the key and keeps the other interfaces |
| PeerRoutes.ListInterfaces | backend/api/routes.py:372-376 | the listing pass succeeds exactly when every interface lists, and the live map then answers each (interface, key) from those listings |
| PeerRoutes.ApplyItems | backend/api/routes.py:377-402 | the item loop yields exactly the reselected table and the new rows the items specify |
| PeerRoutes.ImportListed | backend/api/routes.py:370-404 | a failed listing or colliding new rows is a 500, and every failure is a 500; otherwise the count of new rows, with the updated and extended table, which keeps its unique key |
| PeerRoutes.ImportPeers | backend/api/routes.py:366-404 | an unknown router is a 404; on failure nothing is stored; on success the table is the reselected one plus the new rows and the answer counts those rows |
| UsageRoutes.ClockTextReadsBack | backend/api/routes.py:651 | the `%H:%M:%S` label is eight characters and reads back as the second of the day of the sample |
| UsageRoutes.Lookback | backend/api/routes.py:631 | the look-back is `seconds` when given and positive, else 3600 |
| UsageRoutes.Recent | backend/api/routes.py:633-638 | the window keeps only samples at or after the cutoff |
| UsageRoutes.RecentMembers | backend/api/routes.py:635 | a sample is in the window exactly when it is in the history and taken at or after the cutoff |
| UsageRoutes.RecentAppend | backend/api/routes.py:633-638 | the window of two stretches of history is the window of the first followed by that of the second, so the window keeps the history's order |
| UsageRoutes.RawPointsTotal | backend/api/routes.py:641-652 | the raw points add up to the clamped deltas of the window's samples |
| UsageRoutes.RawPointsShowTraffic | backend/api/routes.py:649-650 | every raw point shows traffic in at least one direction |
| UsageRoutes.RawPointsCount | backend/api/routes.py:641-652 | there is at most one point per step between consecutive samples |
| UsageRoutes.RawUsage | backend/api/routes.py:639-653 | the loop with the `prev` cursor builds exactly `RawPoints` |
| UsageRoutes.DailyPoints | backend/api/routes.py:621-627 | the daily answer holds every daily row of the peer, one point each, in increasing day order |
| UsageRoutes.GetPeerUsage | backend/api/routes.py:610-655 | daily gives the ordered daily rows, raw gives the points of the peer's samples within the look-back, and any other window is a 400 |
| UsageRoutes.RawPointsMatchMonthly | backend/api/routes.py:641-652 | in a valid database the raw points of a month's history add up to the monthly row |
| UsageRoutes.WithoutPeerCount | backend/api/routes.py:664 | the deleted samples are exactly the peer's history |
| UsageRoutes.RollupCounts | backend/api/routes.py:665-666 | the deleted daily and monthly rows together with the remaining ones make up the tables |
| UsageRoutes.ResetPeerMetrics | backend/api/routes.py:659-673 | an unknown peer is a 404 and changes nothing; otherwise exactly the peer's samples and rows are deleted and counted |
| UsageRoutes.ResetForgetsOnlyThePeer | backend/api/routes.py:664-666 | after a reset the peer has no history or rows, and every other peer keeps its history, daily sums and monthly rows |
| QuotaRoutes.QuotaKeysDistinct | backend/api/routes.py:692-693 | the two window keys never clash, and each names one peer |
| QuotaRoutes.LimitShown | backend/api/routes.py:689 | the limit shown is none without a row or with a zero limit, else the row's limit |
| QuotaRoutes.ResetDayShown | backend/api/routes.py:690 | the reset day is the row's, else the configured default |
| QuotaRoutes.MonthUsed | backend/api/routes.py:697-700 | the summing loop returns the sum of the peer's daily rows in the month |
| QuotaRoutes.MonthUsedIsMonthly | backend/api/routes.py:697-700 | in a valid database that sum equals the monthly row and the usage of the peer's samples in the month |
| QuotaRoutes.GetPeerQuota | backend/api/routes.py:687-708 | the answer is the limit, reset day and window as stored, plus the month's usage |
| QuotaRoutes.PatchedEntryReadsBack | backend/api/routes.py:728-745 | an empty value deletes an entry, a non-empty one stores it, none leaves it; no other entry changes |
| QuotaRoutes.PatchPeerQuota | backend/api/routes.py:718-747 | the row is created with limit 0 and the default reset day when missing; a given limit replaces its limit; both window ends are patched; the answer is read back |
| QuotaRoutes.PatchReadsBack | backend/api/routes.py:718-747 | a patch reads back with the given limit (none for 0), the kept or default reset day, the window ends as patched and the same usage; no other peer's view changes |

## Left out

- HTTP and binary-API transport, the scheme fallback of the REST adapter,
  and connection handling. A router's answer is a parameter that either
  fails or holds rows.
- `ip_network(...).is_private` and its address parsing. The classification
  of a host is a parameter `classify`.
- Fernet encryption (backend/security.py). `encrypt` and `decrypt` are
  parameters, and decryption is partial.
- RouterRoutes.UpdateIdempotent: an `encrypt` parameter is a function, so
  one handler call gives one token per password. Fernet issues a fresh
  token on every call, so the lemma lets the two updates encrypt through
  different ciphers and compares the stored rows apart from the token.
- SQLAlchemy sessions and their transactions. The tables are fields of
  `Store.Database`, and a handler's changes are committed all at once or not
  at all.
- Id allocation uses a counter of the last id handed out. Foreign keys and
  cascades are not modelled, and a quota row may name any peer id.
- APScheduler, its threads and the timing of ticks.
  `Scheduler.SchedulerState` only holds the job's interval.
- Floats and `int(float)` truncation in the parsers. A non-string value in a
  textual row field reads as "". Host metrics (psutil, load averages) are
  left out too.
- Unicode beyond whitespace. `strip` removes what `str.isspace` accepts,
  but `lower` only changes ASCII letters and `int` and `isdigit` only accept
  ASCII digits.
- Scheduler.PollOnce: the latest sample of a peer is its last appended one.
  The source orders by timestamp, which agrees as long as the clock does
  not go back.
- Scheduler.PollOnce: the groups are taken in an order of the model's
  choice. Python uses insertion order, and the result does not depend on it.
- The clock. An `Instant` holds whole seconds since the epoch and the UTC
  day they fall on. The label `%H:%M:%S` is rendered from it by
  `UsageRoutes.ClockText`, and a point stores the timestamp.
- UsageRoutes.GetPeerUsage: the listing order of daily rows is the day
  order, which the model proves, rather than a string sort of "YYYY-MM-DD".
- UsageRoutes.GetPeerUsage: the raw series takes the peer's samples in the
  order they were appended, where the source sorts them by timestamp
  (backend/api/routes.py:636). The two agree as long as the clock does not
  go back.
- UsageRoutes.GetPeerUsage: a look-back so large that the cutoff falls
  outside the `datetime` range makes the source raise `OverflowError` at
  backend/api/routes.py:632, which is a 500. The model answers the series
  for every look-back.
- QuotaRoutes.PatchPeerQuota: integers are unbounded. A limit outside the
  signed 64-bit `BigInteger` column (backend/models.py:86) makes the commit
  fail with a 500 in the source, while the model stores it. The same bound
  on the rx/tx counter columns (backend/models.py:50-75) is not modelled.
- `settings.monthly_reset_day` and the settings defaults are parameters of
  the quota and settings handlers (`defaultResetDay`, `RuntimeSettings`).
- Request defaults: `window="daily"` of `get_peer_usage`
  (backend/api/routes.py:613) and `selected = True` of an import item
  (backend/api/routes.py:362) are not modelled. The handlers take the window
  and each item's `selected` as explicit arguments.
- The demo, metrics, purge, monthly-summary, interface and test endpoints,
  which are outside the modelled core.
- `remove_wireguard_peer` and `get_wireguard_interface`, which only
  forward a request.
