# openweb_proxy: a verified model of the proxy miner

openweb_proxy mines public proxies from the Web. A `ProxyMiner` holds a
set of proxy URLs of one protocol (`https://1.2.3.4:8080`). It fills the
set from a registry of sources: URLs whose text is scanned for
`IPv4:port` endpoints, plus two built-in scrapers (sslproxies.org and the
clarketm list). It then filters the set:

- `clean` keeps the proxies that accept a SOCKS connection and an HTTP
  request and are not in a banned list;
- `verify` posts the hosts in batches to a detection service, adds back
  those the service does not flag, and sleeps when the rate-limit window
  is used up.

The set is saved to and loaded from a newline-separated file, and
`benchmark_sources` runs the pipeline once per source.

This project models two revisions of that class:

- `openweb_proxy/proxy_miner.py` (module `Miner`);
- the older copy in `openweb_proxy/cli.py` (module `Cli`).

Both rest on shared specification functions:

- `PyText` models the Python string and integer builtins the miner relies
  on: `split`, `splitlines`, `removeprefix`, `int`, `in` and slicing.
- `Endpoint` models the endpoint regular expression of
  `openweb_proxy/cli.py:90-96`:
  - its numeric alternatives as predicates, proved equal to "a decimal in
    range without leading zeros";
  - group 1 and the guards as a reader over digit runs;
  - `finditer` as a left-to-right scan, proved ordered, non-overlapping
    and leftmost.
- `Proxies` defines what each stage does to the proxy set. The stages are
  `get` and its scrapers, `_check_generic`'s parsing, `_clean_proxy` and
  `clean`, the batches and sleeps of `verify`, and the save/load text
  format. The two revisions differ through a `Revision` argument or a
  sleep `margin`.

The network is a `Web` value: oracle functions for `requests.get`, the
scraped table, getter callables, SOCKS reachability, the HTTP check and
the batch `requests.post`. Each answer depends only on the request. Python
exceptions are `Outcome.Raised(e)`. The `sleep` calls of `verify` are
appended to a log of `Post`/`Sleep` events.

## Model

| member | source | states |
|---|---|---|
| PyText.Split | openweb_proxy/proxy_miner.py:124-126 | `s.split(sep)` always yields at least one piece |
| PyText.SplitJoin | openweb_proxy/proxy_miner.py:124-126 | the pieces of `split` hold no separator and join back to the input |
| PyText.SplitInTwo | openweb_proxy/proxy_miner.py:124-126 | `s.split(sep)` is `[a, b]` exactly when `s` is `a`, sep, `b` with no separator in `a` or `b` (both directions) |
| PyText.RemovePrefix | openweb_proxy/proxy_miner.py:124-125 | `removeprefix` drops the prefix when present and leaves the string alone otherwise |
| PyText.PyIntOfIntString | openweb_proxy/proxy_miner.py:127 | `int(str(n)) == n` for every integer |
| PyText.SplitLinesLine | openweb_proxy/proxy_miner.py:324 | a line without line breaks, then `\n`, is the first of `splitlines` |
| PyText.SplitLinesLast | openweb_proxy/proxy_miner.py:324 | a non-empty text without line breaks is one line |
| PyText.ContainsIff | openweb_proxy/proxy_miner.py:215 | the substring test `x in s` holds exactly when `x` occurs at some index of `s` |
| PyText.SliceRules | openweb_proxy/proxy_miner.py:77 | Python slicing: bounds inside the sequence slice directly, a negative bound counts from the end and one reaching before the start is the start, a stop past the end is the end, and a start at or past the stop, or past the end, gives nothing |
| Endpoint.FirstOctetFormIsDecimal | openweb_proxy/cli.py:92 | the first-octet alternatives match exactly the decimals 1..255 without leading zeros |
| Endpoint.OctetFormIsDecimal | openweb_proxy/cli.py:93 | the octet alternatives match exactly the decimals 0..255 without leading zeros |
| Endpoint.PortFormIsDecimal | openweb_proxy/cli.py:94 | the port alternatives match exactly the decimals 0..65535 without leading zeros |
| Endpoint.WellFormedForms | openweb_proxy/cli.py:91-94 | five numerals are a well-formed endpoint exactly when each matches its alternative |
| Endpoint.ValueBounds | openweb_proxy/cli.py:92-94 | a numeral of n digits is below 10^n, and at least 10^(n-1) without a leading zero |
| Endpoint.RunEnd | openweb_proxy/cli.py:91 | the greedy `\d` run from `i` is all digits and is followed by a non-digit or the end |
| Endpoint.RunsSound | openweb_proxy/cli.py:91 | the digit runs read at `i` are spelled out there with the separators between them, and no digit follows |
| Endpoint.RunsComplete | openweb_proxy/cli.py:91 | conversely, runs laid out that way are read back exactly |
| Endpoint.GroupAtSound | openweb_proxy/cli.py:91-94 | what the group reader finds is a well-formed endpoint spelled out at `s`, with no digit after it |
| Endpoint.GroupAtComplete | openweb_proxy/cli.py:91-94 | every well-formed endpoint spelled at `s` with no digit after it is what the reader finds |
| Endpoint.GroupOfRuns | openweb_proxy/cli.py:91-94 | well-formed runs read at `s` are group 1 |
| Endpoint.MatchAt | openweb_proxy/cli.py:91 | a match starting at `q` ends after `q` and within the text |
| Endpoint.Matcher | openweb_proxy/cli.py:90-96 | the compiled pattern advances at every position and agrees with `MatchAt` |
| Endpoint.MatchAnatomy | openweb_proxy/cli.py:91 | a match is the start of text or one non-digit, then a well-formed group 1 with no digit after it; the trailing guard is consumed or only looked at |
| Endpoint.CloseAnatomy | openweb_proxy/cli.py:91 | the match built from group 1 keeps its fields, its span and its guard |
| Endpoint.ScanByElement | openweb_proxy/proxy_miner.py:91 | each match of the scan is a match at its own start, at or after the start point, after the previous one's end |
| Endpoint.ScanByCovers | openweb_proxy/proxy_miner.py:91 | any position where a match could start lies inside a match the scan yields |
| Endpoint.ScanOrdered | openweb_proxy/proxy_miner.py:91 | `finditer` yields matches at their own starts, in order, without overlap |
| Endpoint.ScanLeftmost | openweb_proxy/proxy_miner.py:91 | `finditer` passes over no position where a match could start, except inside an earlier match |
| Endpoint.MatchCanonical | openweb_proxy/cli.py:91-94 | every match's group 1 is a canonical endpoint with no digit on either side |
| Endpoint.ScannedGroupsCanonical | openweb_proxy/proxy_miner.py:88-93 | every group `finditer` finds is canonical, with the consumed guard and with the look-ahead |
| Endpoint.RenderLength | openweb_proxy/cli.py:91-94 | group 1 spans at least nine characters |
| Endpoint.ScanByNone | openweb_proxy/proxy_miner.py:91 | a scan over a stretch where no match can start yields nothing |
| Endpoint.ScanStep | openweb_proxy/proxy_miner.py:91 | `finditer` resumes at the end of the previous match |
| Endpoint.MatchAtGuard | openweb_proxy/cli.py:91 | after position 0, a match needs the leading non-digit and group 1 right after it |
| Endpoint.MatchAtNone | openweb_proxy/cli.py:91 | after position 0, no match starts at the end, at a digit, or at a non-digit not followed by group 1 |
| Endpoint.MatchAtStart | openweb_proxy/cli.py:91 | a text that begins with group 1 matches at 0 through `^` |
| Endpoint.NoMatchNearEnd | openweb_proxy/cli.py:91 | no match starts after position 0 fewer than ten characters before the end |
| Endpoint.NonDigitsRender | openweb_proxy/cli.py:91 | group 1 holds exactly four non-digits, three dots and a colon |
| Endpoint.NoGroupAfter | openweb_proxy/cli.py:91 | group 1 cannot start after a non-digit of a suffix holding at most four non-digits |
| Endpoint.NoMatchInSecond | openweb_proxy/cli.py:91 | no match starts anywhere in the second line of two |
| Endpoint.ScanLines | openweb_proxy/cli.py:91 | with the look-ahead guard, each entry of a newline-separated list after a non-digit is found, in order |
| Endpoint.LookaheadReadsList | openweb_proxy/cli.py:91 | with the look-ahead guard, `finditer` reads back every entry of a newline-separated list, in order |
| Endpoint.LookaheadReadsBothLines | openweb_proxy/cli.py:91 | the look-ahead form finds both `1.1.1.1:80` and `2.2.2.2:80` in their two-line list |
| Endpoint.AsWrittenDropsSecondLine | openweb_proxy/cli.py:91 | as written, `finditer` finds only the first entry of any two-line list |
| Endpoint.FirstLineMatch | openweb_proxy/cli.py:91 | as written, the first match of a list ends past the newline |
| Endpoint.SecondLineSkipped | openweb_proxy/cli.py:91 | the search that resumes past the newline finds nothing |
| Endpoint.AsWrittenSkipsSecondLine | openweb_proxy/cli.py:91 | as written, `finditer` finds only `1.1.1.1:80` in `1.1.1.1:80\n2.2.2.2:80` |
| Proxies.HarvestCanonical | openweb_proxy/proxy_miner.py:84-93 | `_get_proxies` adds only the protocol and a canonical endpoint found in the text with no digit on either side |
| Proxies.SplitProxy | openweb_proxy/proxy_miner.py:124-126 | unpacking into host and port succeeds exactly when the split has two pieces, which rebuild the proxy; otherwise ValueError |
| Proxies.ParseEndpoint | openweb_proxy/proxy_miner.py:124-127 | parsing succeeds exactly when the split succeeds and `int(port)` reads; every failure is ValueError |
| Proxies.EntrySplits | openweb_proxy/proxy_miner.py:124-127 | a mined entry parses back into its host and its port's value |
| Proxies.PyIntOfNumeral | openweb_proxy/proxy_miner.py:127 | `int()` of a digit numeral is its value |
| Proxies.SslRows | openweb_proxy/proxy_miner.py:61-65 | the row loop raises IndexError exactly when a row has fewer than two cells |
| Proxies.SslRowsAdded | openweb_proxy/proxy_miner.py:61-65 | the rows before the first short one are exactly those whose `https://ip:port` was added |
| Proxies.ClarketmLinesStep | openweb_proxy/proxy_miner.py:77-79 | each line of the clarketm loop adds `https://` and its first token exactly when it contains `S` |
| Proxies.HeaderFooterSlice | openweb_proxy/proxy_miner.py:77 | `[6:-2]` drops six header lines and two footer lines, and gives nothing for at most eight lines |
| Proxies.ClarketmIff | openweb_proxy/proxy_miner.py:77-79 | an entry is added exactly when some line from the seventh to the third-last contains `S` and begins with it (both directions) |
| Proxies.GatherFromUrls | openweb_proxy/proxy_miner.py:113-119 | URL sources contribute nothing but mined endpoints |
| Proxies.GatherStops | openweb_proxy/proxy_miner.py:113-121 | `get` stops at the first source that raises, keeping what the earlier sources added and re-raising that error |
| Proxies.CleanProxy | openweb_proxy/proxy_miner.py:182-195 | checking one proxy can raise only ValueError, from parsing |
| Proxies.HttpSkippedWhenUnreachable | openweb_proxy/proxy_miner.py:186-192 | a proxy whose SOCKS connection fails is rejected without the HTTP check |
| Proxies.KeptInAdd | openweb_proxy/proxy_miner.py:212-217 | the kept set grows by one proxy exactly when that proxy is kept |
| Proxies.CleanResult | openweb_proxy/proxy_miner.py:197-219 | `clean` keeps exactly the proxies that pass the checks and are not in the banned text (older revision: pass the HTTP check); with the generic check's target folded into `reach`, it raises when the banned list fails, a proxy does not parse, or `max_workers <= 0`, and only then |
| Proxies.CleanIdempotent | openweb_proxy/proxy_miner.py:197-219 | cleaning a cleaned set, with the same network, changes nothing |
| Proxies.CleanMinedEntries | openweb_proxy/proxy_miner.py:197-219 | entries mined by `_get_proxies` never make `clean` raise |
| Proxies.SaveLength | openweb_proxy/proxy_miner.py:346 | `write` returns the entries' length plus one newline per entry (one fewer in the older format) |
| Proxies.LoadSaved | openweb_proxy/proxy_miner.py:323-346 | loading the saved text gives back the saved entries in order, when none holds a line break |
| Proxies.LoadSavedOlder | openweb_proxy/cli.py:276-295 | the same round trip for the older format without a final newline, when the last entry is not empty |
| Proxies.Pairs | openweb_proxy/proxy_miner.py:255-260 | the host/port pairs are the split of each proxy, in order; the first proxy that does not split in two raises ValueError |
| Proxies.Firsts | openweb_proxy/proxy_miner.py:261 | the keys listed are the hosts of the pairs, in order |
| Proxies.DistinctElements | openweb_proxy/proxy_miner.py:261 | the dict's key list holds each host once and nothing else |
| Proxies.DictLastWins | openweb_proxy/proxy_miner.py:255-260 | `dict(pairs)` has exactly the hosts of the pairs, and each maps to the port of its last pair |
| Proxies.KeysOfDict | openweb_proxy/proxy_miner.py:255-261 | `list(ips.keys())` lists the dict's keys, each once |
| Proxies.ChunksPartition | openweb_proxy/proxy_miner.py:262-265 | for a positive batch size, the chunks partition the host list in order; none is empty, none is longer than the batch size, all but the last are full |
| Proxies.ChunksCount | openweb_proxy/proxy_miner.py:262-265 | for a positive batch size, there are `ceil(len / batch)` chunks |
| Proxies.Accepted | openweb_proxy/proxy_miner.py:294-301 | the result filter can raise only KeyError |
| Proxies.AcceptedIff | openweb_proxy/proxy_miner.py:294-301 | the filter succeeds exactly when every undetected host is in the dict, and then yields exactly the undetected hosts with their ports |
| Proxies.Pause | openweb_proxy/proxy_miner.py:287-292 | the rate-limit pause sleeps at most once, never for a negative time, and raises only ValueError |
| Proxies.VerifyStep | openweb_proxy/proxy_miner.py:270-301 | each chunk is posted first, and at most one sleep follows the post |
| Proxies.StepReads | openweb_proxy/proxy_miner.py:282-301 | after the header checks pass, a chunk ends as the JSON decoding and the result filter do |
| Proxies.SleepRule | openweb_proxy/proxy_miner.py:282-292 | after an ok response carrying both headers with an integer `X-Rl`: when `X-Rl` is not 0 the step does not sleep, whatever `X-Ttl` holds; when it is 0 the step sleeps `X-Ttl` plus the timeout if `X-Ttl` is an integer and that sum is not negative, and otherwise raises ValueError having only posted |
| Proxies.RunChunksSteps | openweb_proxy/proxy_miner.py:268-304 | running the chunks from `k` on is running their steps from `k` on |
| Proxies.RunCompletes | openweb_proxy/proxy_miner.py:268-304 | `verify` completes exactly when every chunk's step goes on, and then every chunk was posted, in order |
| Proxies.RunStopsAt | openweb_proxy/proxy_miner.py:268-304 | at the first chunk that does not go on, `verify` returns False or raises as that chunk does, and no later chunk is posted |
| Proxies.RunAtCompletes | openweb_proxy/proxy_miner.py:268-304 | over steps already taken, each posting its own chunk: from step `k` on the run completes exactly when every step goes on, and then it posts every chunk from `k` on |
| Proxies.RunAtStops | openweb_proxy/proxy_miner.py:268-304 | over steps already taken: the first step that does not go on ends the run as it ends, and exactly the chunks up to it are posted |
| Proxies.RunUnfold | openweb_proxy/proxy_miner.py:268-304 | a chunk that goes on is followed by the rest of the run |
| Proxies.RunAddsAccepted | openweb_proxy/proxy_miner.py:294-301 | everything `verify` adds was accepted in answer to a chunk it reached |
| Proxies.SleepsFollowPosts | openweb_proxy/proxy_miner.py:270-292 | every sleep comes right after the post whose reply asked for it |
| Proxies.VerifyQueriesEveryHost | openweb_proxy/proxy_miner.py:255-273 | for a positive batch size, a completed `verify` posted every distinct host exactly once, in batches of at most the batch size |
| Proxies.NonPositiveBatch | openweb_proxy/proxy_miner.py:262-304 | once the host dict builds, a batch size of 0 makes `verify` raise ValueError, and a negative one makes it return True with no query posted and nothing added |
| Proxies.ListOf | openweb_proxy/proxy_miner.py:121 | `list(s)` lists each element of the set once |
| Miner.ProxyMiner.constructor | openweb_proxy/proxy_miner.py:30-51 | the registry's `https` list gains the two built-in scrapers and the set starts empty |
| Miner.ProxyMiner.GetProxies | openweb_proxy/proxy_miner.py:84-98 | the set grows by the mined endpoints; a timeout or connection error is swallowed and adds nothing |
| Miner.ProxyMiner.GetSslproxies | openweb_proxy/proxy_miner.py:53-68 | the set grows by the table rows as `GetStep` says; a missing table or a short row raises |
| Miner.ProxyMiner.GetClarketm | openweb_proxy/proxy_miner.py:70-82 | the set grows by the clarketm lines as `GetStep` says |
| Miner.ProxyMiner.Get | openweb_proxy/proxy_miner.py:100-121 | the set grows by what the sources add up to the first exception, which is re-raised; otherwise the result lists the whole set |
| Miner.ProxyMiner.Clean | openweb_proxy/proxy_miner.py:197-219 | the set becomes `CleanResult`'s kept set, or is unchanged when it raises |
| Miner.ProxyMiner.CheckAll | openweb_proxy/proxy_miner.py:208-217 | the pool's loop over the futures raises ValueError on an unparsable proxy and otherwise keeps exactly `KeptIn` |
| Miner.ProxyMiner.Verify | openweb_proxy/proxy_miner.py:240-304 | the set grows by what the run accepted, the log by its posts and sleeps, and the result is True, False or the run's exception |
| Miner.ProxyMiner.VerifyChunks | openweb_proxy/proxy_miner.py:268-304 | the chunk loop updates the set and log as `RunChunks` says |
| Miner.ProxyMiner.VerifyChunk | openweb_proxy/proxy_miner.py:269-302 | one chunk posts, may sleep, and adds its undetected hosts when it goes on |
| Miner.ProxyMiner.Load | openweb_proxy/proxy_miner.py:306-336 | with `web` the set is loaded as `get` loads it; otherwise the file's lines are added and listed, and a missing or empty file returns `[]` |
| Miner.ProxyMiner.Save | openweb_proxy/proxy_miner.py:338-347 | an empty set returns -1 and writes nothing; otherwise the text lists every proxy once, one per line, `write` returns its length, and it loads back as the same set when no proxy holds a line break |
| Miner.ProxyMiner.Refresh | openweb_proxy/proxy_miner.py:352-355 | `load` from the Web (that is, `get`), then `verify`, then `clean`, as `Round` over the protocol's sources says: `verify` lists the set `get` left, the set and the log become the pass's, and the first exception propagates; a missing protocol raises KeyError and changes nothing |
| Miner.ProxyMiner.BenchmarkSources | openweb_proxy/proxy_miner.py:357-365 | a missing protocol raises KeyError and changes nothing; otherwise round `i` is the pass over the `i`-th distinct source alone, begun from the set round `i - 1` left; the set and the log are what the rounds leave and the protocol's only source is the last one benchmarked; the result is the first round's exception, every earlier round having returned, or the sizes the source logs, returned here as a dict mapping every distinct source to the set's size after its own round (the source itself returns None) |
| Miner.ProxyMiner.BenchmarkRound | openweb_proxy/proxy_miner.py:360-365 | the source becomes the protocol's only source, then `get`, `verify` and `clean` run as `Round` over that source says; the result is the set's size, or the first exception |
| Proxies.RoundCounts | openweb_proxy/proxy_miner.py:360-365 | a pass returns exactly when `get`, `verify` and `clean` all return, and then holds exactly the gathered and verified proxies that pass `clean`'s checks and are not banned; `verify` lists the set `get` left |
| Proxies.RoundsChain | openweb_proxy/proxy_miner.py:359-365 | benchmark round `k` is the pass over the `k`-th source alone, begun from the set round `k - 1` left |
| Proxies.ProgressStep | openweb_proxy/proxy_miner.py:359-365 | one more round, begun from the set the earlier ones left, extends the rounds, the set, the log and the registry as the loop does |
| Proxies.SizedStep | openweb_proxy/proxy_miner.py:358-365 | recording a round's size keeps the sizes recorded for the earlier sources, which are distinct keys of the dict |
| Cli.Repr | openweb_proxy/cli.py:131 | `repr` of a string is quoted with the same quote at both ends |
| Cli.AsWrittenEntriesAreReprs | openweb_proxy/cli.py:131 | formatting the match object adds no mined entry at all, shares nothing with the corrected harvest, and is empty only when nothing matched |
| Cli.AsWrittenNotHarvested | openweb_proxy/cli.py:131 | no entry built from a match object's repr is a mined entry |
| Cli.AsWrittenEmpty | openweb_proxy/cli.py:131 | the as-written harvest is empty exactly when the pattern matches nothing |
| Cli.ReprNotEntry | openweb_proxy/cli.py:131 | a match object's repr after `://` starts with `<`, where a mined entry has a digit |
| Cli.EntryDigitAt | openweb_proxy/proxy_miner.py:90 | an entry built from group 1 has a digit right after `://` |
| Cli.VerdictOlder | openweb_proxy/cli.py:232-259 | the older `verify` returns True after the last chunk, None where the current one returns False, never False, and raises what the current one raises |
| Cli.StepWithoutMargin | openweb_proxy/cli.py:243-247 | the older step behaves as the current one except that each sleep is shorter by the timeout, when `X-Ttl` is not negative |
| Cli.ProxyMiner.constructor | openweb_proxy/cli.py:79-104 | the registry's `https` list gains the two built-in scrapers and the set starts empty |
| Cli.ProxyMiner.GetProxies | openweb_proxy/cli.py:128-132 | the set grows by the mined endpoints; a failed request raises and adds nothing |
| Cli.ProxyMiner.Fetch | openweb_proxy/cli.py:145-149 | one entry of the loop: a string is fetched and harvested, a callable is called and its result dropped; the set grows by what that source adds and its exception, if any, is returned |
| Cli.ProxyMiner.Get | openweb_proxy/cli.py:134-151 | the set grows by what the sources add up to the first exception; what a getter callable returns is ignored |
| Cli.ProxyMiner.Clean | openweb_proxy/cli.py:153-196 | the set becomes exactly the proxies that pass the HTTP check, with no banned list; `max_workers <= 0` raises |
| Cli.ProxyMiner.Verify | openweb_proxy/cli.py:215-259 | as the current `verify`, but with sleeps of exactly `X-Ttl` and None where it returns False |
| Cli.ProxyMiner.VerifyChunks | openweb_proxy/cli.py:230-257 | the chunk loop updates the set and log as `RunChunks` without margin says |
| Cli.ProxyMiner.VerifyChunk | openweb_proxy/cli.py:231-257 | one chunk posts, may sleep `X-Ttl`, and adds its undetected hosts when it goes on |
| Cli.ProxyMiner.Load | openweb_proxy/cli.py:261-285 | a non-empty file's lines are added; the web is used only when the file is missing or empty and `web` is set; nothing is returned |
| Cli.ProxyMiner.Save | openweb_proxy/cli.py:287-295 | an empty set returns None; otherwise the text joins every proxy with newlines and no final one, and loads back as the same set when no entry is empty and none holds a line break |

## Left out

- HTTP, sockets, the SOCKS library and the detection service become the
  `Web` oracle. Answers that change between calls, and timeouts other
  than the exceptions listed in `Proxies.Error`, are not modelled.
- Thread-pool concurrency in `clean` is a sequential loop over the set.
  Completion order does not change the kept set, and an exception of
  `_clean_proxy` resurfaces from `result()` either way.
- `sleep` does not wait. Each call is recorded as a `Sleep(seconds)`
  event in the miner's `log`.
- JSON decoding and BeautifulSoup parsing become inputs: the decoded
  answer list, or `None`, and the table's cell strings.
- File I/O keeps only the text formats: `Load` receives the file's
  contents (`None` when the file does not exist) and `Save` returns the
  text it would write.
- Set and dict iteration order is left open. `Verify` and `Save` work for
  any listing of the set (`Listing`).
- `random`, `is_proxy`, logging, argparse, the `__main__` entry point and
  the user-agent headers are outside the pipeline and are not modelled.
- The shared mutable default registry in the constructors, where each
  instance extends the same list, is not modelled. Each constructor
  receives its own registry value.
- `socks.setdefaultproxy` rebinding the global socket module is folded
  into the `reach` oracle.
- `openweb_proxy/config.py` defines neither `RE_IP_V4` nor `checker`,
  which `proxy_miner.py:36` and `proxy_miner.py:132` read. As written,
  the default argument at `proxy_miner.py:36` raises AttributeError when
  the class is defined, so the module does not import. Past that,
  `_check_generic` raises AttributeError at `proxy_miner.py:132` for every
  proxy that parses, so `clean` raises on any set that holds a parsable
  proxy. The model instead uses the pattern of `cli.py:90-96`, with its
  trailing guard as a look-ahead (see `Proxies.Harvest` below), for the
  first and folds the generic reachability target into `reach`.
  `Proxies.CleanResult`'s "raises only then" holds for that substituted
  `reach`, not for the code as written.
- `\d` is modelled as ASCII `0`-`9`. Python's Unicode digits are not.
  `PyText.PyInt` strips ASCII whitespace and reads ASCII digits only;
  Python's `int()` also strips non-ASCII whitespace and accepts non-ASCII
  digits.
  `Cli.Repr` escapes ASCII control characters but leaves other non-ASCII
  characters unescaped.
- `Proxies.Harvest`, which `Miner` and `Cli` both use, reads group 1 with
  the look-ahead guard: the corrected behaviour of both findings below.
  The behaviour as written is stated by `Endpoint.Finditer` and
  `Cli.HarvestAsWritten`.
- `Cli.ProxyMiner.GetProxies` uses the corrected harvest
  (`Proxies.Harvest`). As written, `cli.py:131` would add
  `Cli.HarvestAsWritten(protocol, text)` instead.
- `Cli.ProxyMiner.Fetch` uses the corrected harvest for a URL source. As
  written, it would add `Cli.HarvestAsWritten(protocol, text)` instead.
- `Cli.ProxyMiner.Get` uses the corrected harvest for every URL source.
  As written, each would add `Cli.HarvestAsWritten(protocol, text)`
  instead.
- `Cli.ProxyMiner.Get` applies the shared `GetStep` for the two built-in
  scrapers. Apart from the timeout argument, `cli.py:106-126` is the same
  code as `proxy_miner.py:53-82`, which `Miner` models as methods.
- `verify`'s docstring (`proxy_miner.py:245`) says it keeps only
  undetected proxies. The code never removes anything, it only adds
  (`proxy_miner.py:295-301`), and the model follows the code.
- `clean` tests whether the whole proxy URL is a substring of the banned
  text (`proxy_miner.py:215`).
- `benchmark_sources` neither empties the set between sources nor
  restores the registry afterwards. The model follows the code.

## Findings

| source | as written | input that shows it | evidently intended | confidence | as-written member | corrected member |
|---|---|---|---|---|---|---|
| openweb_proxy/cli.py:91 | the trailing guard (a non-digit or the end, in a non-capturing group) consumes the newline after an endpoint, so the next endpoint has no leading non-digit left and every second entry of a newline-separated list is skipped | `"1.1.1.1:80\n2.2.2.2:80"` yields only `1.1.1.1:80` | the same guard as a look-ahead, which finds every entry | high; not executed | Endpoint.AsWrittenDropsSecondLine | Endpoint.LookaheadReadsList |
| openweb_proxy/cli.py:131 | the set comprehension formats the `re.Match` object itself, giving `https://<re.Match object; span=(0, 10), match='1.1.1.1:80'>` | `"1.1.1.1:80"` | `proxy.group(1)`, as `proxy_miner.py:90` does | high; not executed | Cli.AsWrittenEntriesAreReprs | Proxies.HarvestCanonical |
