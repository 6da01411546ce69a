/** The deterministic core of the proxy miner once the network is an oracle:
    the source registry, the strings proxies travel in (`proto://host:port`,
    the clarketm list, the newline file format), and specification functions
    saying what `get`, `clean` and `verify` do to the proxy set. The two
    revisions of `ProxyMiner` (openweb_proxy/proxy_miner.py and the older copy
    in openweb_proxy/cli.py) share these definitions; where they differ, a
    `Revision` argument or a `margin` says how. */
module Proxies {
  import opened PyText
  import Endpoint

  // ---------------------------------------------------------------------
  // Exceptions, outcomes, the network oracle
  // ---------------------------------------------------------------------

  /** The Python exceptions that can leave a stage of the pipeline. */
  datatype Error =
    | ValueError       // bad `split` unpacking, `int()`, `range` step 0, negative sleep, JSON decoding
    | KeyError         // missing registry entry, header or queried host
    | IndexError       // a scraped table row with fewer than two cells
    | AttributeError   // the scraped page has no proxy table
    | ReadTimeout      // requests.exceptions.ReadTimeout
    | ConnectionError  // requests.exceptions.ConnectionError
    | RequestError     // any other requests.RequestException

  /** A call either returns a value or raises. */
  datatype Outcome<T> = Returned(value: T) | Raised(error: Error)

  /** One `requests.get`: the response text, or the exception it raised. */
  datatype Fetch = Body(text: string) | Failed(error: Error)

  /** One element of the detection service's JSON answer. */
  datatype Answer = Answer(query: string, status: string, proxy: bool)

  /** One `requests.post` to the detection service: a `RequestException`, or
      a response with its `ok` flag, the `X-Rl` and `X-Ttl` headers when
      present, and the decoded JSON body (`None` when it does not decode). */
  datatype Reply =
    | PostFailed
    | Response(ok: bool, rl: Option<string>, ttl: Option<string>, body: Option<seq<Answer>>)

  /** Everything the miner asks of the outside world. Each answer depends
      only on the question. */
  datatype Web = Web(
    fetch: string -> Fetch,                        // requests.get(url).text
    table: string -> Option<seq<seq<string>>>,     // cells of the sslproxies table rows; None: no table
    call: string -> Outcome<set<string>>,          // a getter callable, by name
    reach: (string, int) -> bool,                  // SOCKS5 connection through host:port to the generic target
    http: string -> bool,                          // `_check_http`: GET through the proxy succeeded and r.ok
    post: (string, seq<string>) -> Reply)          // requests.post(url, chunk)

  const SSLPROXIES_URL: string := "https://www.sslproxies.org/"
  const CLARKETM_URL: string := "https://raw.githubusercontent.com/clarketm/proxy-list/master/proxy-list.txt"
  const BANNED_URL: string := "https://raw.githubusercontent.com/ankaboot-source/email-open-data/main/mailserver-banned-ips.txt"
  const ISPROXY_URL_BATCH: string := "http://ip-api.com/batch?fields=status,proxy,query"
  const MAX_ISPROXY_BATCH: int := 100
  const MAX_CHECK_WORKERS: int := 20
  const TIMEOUT: int := 5

  /** An entry of the source registry: a URL whose text is scanned for
      endpoints, one of the two built-in scrapers, or another getter callable
      known by name. */
  datatype Source = Url(url: string) | Sslproxies | Clarketm | Getter(name: string)

  /** Which copy of `ProxyMiner`: proxy_miner.py, or the older one in cli.py. */
  datatype Revision = Current | Older

  // ---------------------------------------------------------------------
  // Endpoint strings
  // ---------------------------------------------------------------------

  /** The host part of group 1, `a.b.c.d`. */
  function Host(f: Endpoint.Fields): string
  {
    f.a + "." + f.b + "." + f.c + "." + f.d
  }

  /** `f"{protocol}://{m.group(1)}"` for a match with numerals `f`. */
  function EntryOf(protocol: string, f: Endpoint.Fields): string
  {
    protocol + "://" + Endpoint.Render(f)
  }

  /** `{f"{protocol}://{m.group(1)}" for m in regex.finditer(text)}`, with the
      trailing guard read as a look-ahead (see `Endpoint.AsWrittenDropsSecondLine`). */
  function Harvest(protocol: string, text: string): set<string>
  {
    set m | m in Endpoint.Scan(text, 0, false) :: EntryOf(protocol, m.fields)
  }

  /** An entry mined from text: the protocol, `://`, and a canonical endpoint. */
  ghost predicate Harvested(protocol: string, e: string)
  {
    exists f: Endpoint.Fields ::
      && Endpoint.Decimal(f.a, 1, 255) && Endpoint.Decimal(f.b, 0, 255)
      && Endpoint.Decimal(f.c, 0, 255) && Endpoint.Decimal(f.d, 0, 255)
      && Endpoint.Decimal(f.port, 0, 65535)
      && e == EntryOf(protocol, f)
  }

  /** Everything `_get_proxies` adds is the protocol and a canonical
      endpoint that occurs in the text with no digit on either side. */
  lemma {:induction false} HarvestCanonical(protocol: string, text: string, e: string)
    requires e in Harvest(protocol, text)
    ensures exists m :: m in Endpoint.Scan(text, 0, false) && Endpoint.Canonical(text, m)
                        && e == EntryOf(protocol, m.fields)
    ensures Harvested(protocol, e)
  {
    var m :| m in Endpoint.Scan(text, 0, false) && e == EntryOf(protocol, m.fields);
    Endpoint.ScannedGroupsCanonical(text, false);
    var ms := Endpoint.Scan(text, 0, false);
    var i :| 0 <= i < |ms| && ms[i] == m;
    assert Endpoint.Canonical(text, ms[i]);
    var f := m.fields;
    assert Endpoint.Decimal(f.a, 1, 255) && Endpoint.Decimal(f.port, 0, 65535);
  }

  // ---------------------------------------------------------------------
  // Splitting a proxy string
  // ---------------------------------------------------------------------

  /** `host, port = proxy.removeprefix(f"{protocol}://").split(":")`: exactly
      two pieces, or ValueError. */
  function SplitProxy(protocol: string, proxy: string): (r: Outcome<(string, string)>)
    ensures r.Returned? <==> |Split(RemovePrefix(proxy, protocol + "://"), ':')| == 2
    ensures r.Returned? ==> && RemovePrefix(proxy, protocol + "://") == r.value.0 + ":" + r.value.1
                            && ':' !in r.value.0 && ':' !in r.value.1
    ensures r.Raised? ==> r.error == ValueError
  {
    var rest := RemovePrefix(proxy, protocol + "://");
    var parts := Split(rest, ':');
    if |parts| == 2 then
      SplitInTwo(rest, ':', parts[0], parts[1]);
      Returned((parts[0], parts[1]))
    else Raised(ValueError)
  }

  /** The parsing half of `_check_generic`: the split, then `int(port)`. */
  function ParseEndpoint(protocol: string, proxy: string): (r: Outcome<(string, int)>)
    ensures r.Raised? ==> r.error == ValueError
    ensures r.Returned? <==> SplitProxy(protocol, proxy).Returned? && PyInt(SplitProxy(protocol, proxy).value.1).Some?
  {
    match SplitProxy(protocol, proxy)
    case Raised(e) => Raised(e)
    case Returned((host, port)) =>
      match PyInt(port)
      case None => Raised(ValueError)
      case Some(n) => Returned((host, n))
  }

  lemma {:induction false} NoColonInNumeral(s: string)
    requires AllDigits(s)
    ensures ':' !in s
  {
  }

  /** Group 1 is the host, a colon, and the port. */
  lemma {:induction false} RenderHostPort(f: Endpoint.Fields)
    ensures Endpoint.Render(f) == Host(f) + ":" + f.port
    ensures Endpoint.NumeralsOf(f) ==> ':' !in Host(f) && ':' !in f.port
  {
    if Endpoint.NumeralsOf(f) {
      NoColonInNumeral(f.a);
      NoColonInNumeral(f.b);
      NoColonInNumeral(f.c);
      NoColonInNumeral(f.d);
      NoColonInNumeral(f.port);
      assert Host(f) == f.a + ['.'] + f.b + ['.'] + f.c + ['.'] + f.d;
    }
  }

  /** A numeral of ASCII digits reads back with `int()` as its value. */
  lemma {:induction false} PyIntOfNumeral(s: string)
    requires |s| > 0 && AllDigits(s)
    ensures PyInt(s) == Some(Value(s))
  {
    assert !IsSpace(s[0]) && !IsSpace(s[|s| - 1]);
    assert StripLeft(s) == s;
    assert StripRight(s) == s;
    assert DigitGroups(s);
    assert s[0] != '+' && s[0] != '-';
  }

  /** A mined entry parses back into its host and port: `_check_generic`
      and `verify` never raise ValueError on what `_get_proxies` added. */
  lemma {:induction false} EntrySplits(protocol: string, f: Endpoint.Fields)
    requires Endpoint.NumeralsOf(f)
    ensures SplitProxy(protocol, EntryOf(protocol, f)) == Returned((Host(f), f.port))
    ensures ParseEndpoint(protocol, EntryOf(protocol, f)) == Returned((Host(f), Value(f.port)))
  {
    var e := EntryOf(protocol, f);
    RenderHostPort(f);
    assert e == (protocol + "://") + Endpoint.Render(f);
    assert RemovePrefix(e, protocol + "://") == Endpoint.Render(f);
    SplitInTwo(Endpoint.Render(f), ':', Host(f), f.port);
    PyIntOfNumeral(f.port);
  }

  // ---------------------------------------------------------------------
  // get: what each source adds
  // ---------------------------------------------------------------------

  /** What a getter left in `self.proxies`, and the exception it raised,
      if any. Entries added before an exception stay: the getters update
      the set in place. */
  datatype Gathered = Gathered(added: set<string>, error: Option<Error>)

  /** `_get_sslproxies`' row loop: `https://{cells[0]}:{cells[1]}` for each
      row; a row with fewer than two cells raises IndexError. */
  function SslRows(rows: seq<seq<string>>): (g: Gathered)
    ensures g.error.None? <==> forall i :: 0 <= i < |rows| ==> |rows[i]| >= 2
    ensures g.error.Some? ==> g.error.value == IndexError
  {
    if rows == [] then Gathered({}, None)
    else if |rows[0]| < 2 then Gathered({}, Some(IndexError))
    else
      var rest := SslRows(rows[1..]);
      assert forall i :: 1 <= i < |rows| ==> rows[i] == rows[1..][i - 1];
      Gathered({"https://" + rows[0][0] + ":" + rows[0][1]} + rest.added, rest.error)
  }

  /** The rows before the first short one are exactly those whose entries
      were added. */
  lemma {:induction false} SslRowsAdded(rows: seq<seq<string>>, k: nat)
    requires k <= |rows| && forall i :: 0 <= i < k ==> |rows[i]| >= 2
    requires k == |rows| || |rows[k]| < 2
    ensures SslRows(rows).added == set i | 0 <= i < k :: "https://" + rows[i][0] + ":" + rows[i][1]
  {
    if k > 0 {
      SslRowsAdded(rows[1..], k - 1);
      var tail := set i | 0 <= i < k - 1 :: "https://" + rows[1..][i][0] + ":" + rows[1..][i][1];
      var all := set i | 0 <= i < k :: "https://" + rows[i][0] + ":" + rows[i][1];
      assert all == {"https://" + rows[0][0] + ":" + rows[0][1]} + tail by {
        forall e | e in all ensures e in {"https://" + rows[0][0] + ":" + rows[0][1]} + tail {
          var i :| 0 <= i < k && e == "https://" + rows[i][0] + ":" + rows[i][1];
          if i > 0 { assert rows[1..][i - 1] == rows[i]; }
        }
        forall e | e in tail ensures e in all {
          var i :| 0 <= i < k - 1 && e == "https://" + rows[1..][i][0] + ":" + rows[1..][i][1];
          assert rows[1..][i] == rows[i + 1];
        }
      }
    }
  }

  /** `"S" in line` for a one-letter needle. */
  predicate Secure(line: string)
  {
    'S' in line
  }

  /** `line.split(" ")[0]`: the text before the first space. */
  function FirstToken(line: string): string
  {
    Split(line, ' ')[0]
  }

  /** `_get_clarketm`'s loop over `r.text.splitlines()[6:-2]`. */
  function ClarketmLines(lines: seq<string>): set<string>
  {
    set i | 0 <= i < |lines| && Secure(lines[i]) :: "https://" + FirstToken(lines[i])
  }

  lemma {:induction false} ClarketmLinesStep(lines: seq<string>, i: nat)
    requires i < |lines|
    ensures ClarketmLines(lines[..i + 1])
            == ClarketmLines(lines[..i]) + (if Secure(lines[i]) then {"https://" + FirstToken(lines[i])} else {})
  {
    var a, b := lines[..i], lines[..i + 1];
    assert forall j :: 0 <= j < i ==> b[j] == a[j];
    forall e | e in ClarketmLines(b)
      ensures e in ClarketmLines(a) + (if Secure(lines[i]) then {"https://" + FirstToken(lines[i])} else {})
    {
      var j :| 0 <= j < |b| && Secure(b[j]) && e == "https://" + FirstToken(b[j]);
      if j < i { assert e in ClarketmLines(a); }
    }
  }

  function ClarketmProxies(text: string): set<string>
  {
    ClarketmLines(Slice(SplitLines(text), 6, -2))
  }

  /** `a[6:-2]` drops the six-line header and the two-line footer; a text
      of at most eight lines gives nothing. */
  lemma {:induction false} HeaderFooterSlice<T>(a: seq<T>)
    ensures |a| > 8 ==> Slice(a, 6, -2) == a[6..|a| - 2]
    ensures |a| <= 8 ==> Slice(a, 6, -2) == []
  {
  }

  /** `_get_clarketm` adds `https://` and the first space-separated token of
      exactly those lines from the seventh to the third-last that contain
      an `S`. */
  lemma {:induction false} ClarketmIff(text: string, e: string)
    ensures var lines := SplitLines(text);
      e in ClarketmProxies(text) <==>
        exists i :: 6 <= i < |lines| - 2 && Secure(lines[i]) && e == "https://" + FirstToken(lines[i])
  {
    var lines := SplitLines(text);
    HeaderFooterSlice(lines);
    if |lines| > 8 {
      var mid := lines[6..|lines| - 2];
      if e in ClarketmProxies(text) {
        var j :| 0 <= j < |mid| && Secure(mid[j]) && e == "https://" + FirstToken(mid[j]);
        assert mid[j] == lines[j + 6];
      }
      if i :| 6 <= i < |lines| - 2 && Secure(lines[i]) && e == "https://" + FirstToken(lines[i]) {
        assert mid[i - 6] == lines[i];
        assert e in ClarketmLines(mid);
      }
    }
  }

  /** What one registry entry contributes when `get` reaches it. The
      current revision catches ReadTimeout and ConnectionError around a URL
      source and adds what a getter callable returns; the older one catches
      nothing and ignores what a getter returns. */
  function GetStep(web: Web, protocol: string, rev: Revision, src: Source): Gathered
  {
    match src
    case Url(u) =>
      (match web.fetch(u)
       case Body(t) => Gathered(Harvest(protocol, t), None)
       case Failed(e) =>
         if rev == Current && (e == ReadTimeout || e == ConnectionError) then Gathered({}, None)
         else Gathered({}, Some(e)))
    case Sslproxies =>
      (match web.fetch(SSLPROXIES_URL)
       case Failed(e) => Gathered({}, Some(e))
       case Body(t) =>
         match web.table(t)
         case None => Gathered({}, Some(AttributeError))
         case Some(rows) => SslRows(rows))
    case Clarketm =>
      (match web.fetch(CLARKETM_URL)
       case Failed(e) => Gathered({}, Some(e))
       case Body(t) => Gathered(ClarketmProxies(t), None))
    case Getter(n) =>
      (match web.call(n)
       case Raised(e) => Gathered({}, Some(e))
       case Returned(s) => Gathered(if rev == Current then s else {}, None))
  }

  /** The clarketm entry: its page's lines, or the failed request's error. */
  lemma {:induction false} ClarketmStep(web: Web, protocol: string, rev: Revision)
    ensures var g := GetStep(web, protocol, rev, Clarketm);
      match web.fetch(CLARKETM_URL)
      case Failed(e) => g == Gathered({}, Some(e))
      case Body(t) => g == Gathered(ClarketmProxies(t), None)
  {
  }

  /** `get`'s loop over the registry entries, stopping at the first
      exception. */
  function Gather(web: Web, protocol: string, rev: Revision, srcs: seq<Source>): Gathered
  {
    if srcs == [] then Gathered({}, None)
    else
      var first := GetStep(web, protocol, rev, srcs[0]);
      if first.error.Some? then first
      else
        var rest := Gather(web, protocol, rev, srcs[1..]);
        Gathered(first.added + rest.added, rest.error)
  }

  /** A registry of URL sources contributes nothing but mined endpoints. */
  lemma {:induction false} GatherFromUrls(web: Web, protocol: string, rev: Revision, srcs: seq<Source>, e: string)
    requires forall i :: 0 <= i < |srcs| ==> srcs[i].Url?
    requires e in Gather(web, protocol, rev, srcs).added
    ensures Harvested(protocol, e)
  {
    var first := GetStep(web, protocol, rev, srcs[0]);
    if e in first.added {
      assert web.fetch(srcs[0].url).Body?;
      HarvestCanonical(protocol, web.fetch(srcs[0].url).text, e);
    } else {
      GatherFromUrls(web, protocol, rev, srcs[1..], e);
    }
  }

  /** `get` stops at the first source that raises: what it gathered is what
      the sources before it added, and that source's own partial result. */
  lemma {:induction false} GatherStops(web: Web, protocol: string, rev: Revision, srcs: seq<Source>, k: nat)
    requires k < |srcs| && GetStep(web, protocol, rev, srcs[k]).error.Some?
    requires forall i :: 0 <= i < k ==> GetStep(web, protocol, rev, srcs[i]).error.None?
    ensures Gather(web, protocol, rev, srcs) == Gather(web, protocol, rev, srcs[..k + 1])
    ensures Gather(web, protocol, rev, srcs).error == GetStep(web, protocol, rev, srcs[k]).error
  {
    if k > 0 {
      assert srcs[1..][..k] == srcs[..k + 1][1..];
      GatherStops(web, protocol, rev, srcs[1..], k - 1);
    }
  }

  // ---------------------------------------------------------------------
  // clean
  // ---------------------------------------------------------------------

  /** `_clean_proxy`: parse, then `_check_generic`'s connection, then
      `_check_http` only when the connection succeeded. */
  function CleanProxy(web: Web, protocol: string, proxy: string): (r: Outcome<bool>)
    ensures r.Raised? ==> r.error == ValueError
  {
    match ParseEndpoint(protocol, proxy)
    case Raised(e) => Raised(e)
    case Returned((host, port)) => Returned(web.reach(host, port) && web.http(proxy))
  }

  /** The HTTP check's answer for a proxy whose connection failed never
      matters: it is not made. */
  lemma {:induction false} HttpSkippedWhenUnreachable(web: Web, http: string -> bool, protocol: string, proxy: string)
    requires ParseEndpoint(protocol, proxy).Returned?
    requires !web.reach(ParseEndpoint(protocol, proxy).value.0, ParseEndpoint(protocol, proxy).value.1)
    ensures CleanProxy(web, protocol, proxy) == CleanProxy(web.(http := http), protocol, proxy) == Returned(false)
  {
  }

  /** Whether the current `clean` keeps `proxy`: `_clean_proxy` is truthy
      and the proxy string does not occur in the banned-list text. */
  predicate Kept(web: Web, protocol: string, banned: string, proxy: string)
  {
    CleanProxy(web, protocol, proxy) == Returned(true) && !Contains(banned, proxy)
  }

  /** The members of `s` the current `clean` keeps. */
  function KeptIn(web: Web, protocol: string, banned: string, s: set<string>): set<string>
  {
    set p | p in s && Kept(web, protocol, banned, p)
  }

  lemma {:induction false} KeptInAdd(web: Web, protocol: string, banned: string, s: set<string>, x: string)
    ensures KeptIn(web, protocol, banned, s + {x})
            == KeptIn(web, protocol, banned, s) + (if Kept(web, protocol, banned, x) then {x} else {})
  {
  }

  /** The older `clean` keeps a proxy when `_clean_proxy` returns it and it
      is truthy: the HTTP check passed and the string is not empty. */
  predicate KeptOlder(web: Web, proxy: string)
  {
    web.http(proxy) && proxy != ""
  }

  /** Some proxy makes `_clean_proxy` raise. */
  predicate Unparsable(web: Web, protocol: string, proxies: set<string>)
  {
    exists p :: p in proxies && CleanProxy(web, protocol, p).Raised?
  }

  /** `clean`'s new set, or the exception it raises: the banned list is
      fetched first, a pool with `max_workers <= 0` raises ValueError, and
      any `_clean_proxy` exception resurfaces from `result()`. */
  function CleanResult(web: Web, protocol: string, rev: Revision, maxWorkers: int, proxies: set<string>): (r: Outcome<set<string>>)
    ensures r.Returned? ==> r.value <= proxies
    ensures r.Returned? && rev == Current ==>
      && web.fetch(BANNED_URL).Body?
      && forall p :: p in r.value <==> p in proxies && Kept(web, protocol, web.fetch(BANNED_URL).text, p)
    ensures r.Returned? && rev == Older ==>
      forall p :: p in r.value <==> p in proxies && KeptOlder(web, p)
    ensures r.Raised? && rev == Current && web.fetch(BANNED_URL).Body? && maxWorkers > 0 ==> Unparsable(web, protocol, proxies)
    ensures r.Raised? && rev == Older ==> maxWorkers <= 0
    ensures (rev == Current && Unparsable(web, protocol, proxies)) ==> r.Raised?
    ensures (rev == Current && web.fetch(BANNED_URL).Failed?) ==> r.Raised?
    ensures maxWorkers <= 0 ==> r.Raised?
  {
    if rev == Older then
      if maxWorkers <= 0 then Raised(ValueError)
      else Returned(set p | p in proxies && KeptOlder(web, p))
    else
      match web.fetch(BANNED_URL)
      case Failed(e) => Raised(e)
      case Body(banned) =>
        if maxWorkers <= 0 then Raised(ValueError)
        else if Unparsable(web, protocol, proxies) then Raised(ValueError)
        else Returned(KeptIn(web, protocol, banned, proxies))
  }

  /** Cleaning a cleaned set changes nothing, provided the network answers
      the same way: `clean` is idempotent. */
  lemma {:induction false} CleanIdempotent(web: Web, protocol: string, rev: Revision, maxWorkers: int, proxies: set<string>)
    requires CleanResult(web, protocol, rev, maxWorkers, proxies).Returned?
    ensures var once := CleanResult(web, protocol, rev, maxWorkers, proxies).value;
      CleanResult(web, protocol, rev, maxWorkers, once) == Returned(once)
  {
    var once := CleanResult(web, protocol, rev, maxWorkers, proxies).value;
    var twice := CleanResult(web, protocol, rev, maxWorkers, once);
    assert twice.Returned?;
    assert twice.value == once;
  }

  /** Mined entries never make the current `clean` raise. */
  lemma {:induction false} CleanMinedEntries(web: Web, protocol: string, maxWorkers: int, proxies: set<string>)
    requires maxWorkers > 0 && web.fetch(BANNED_URL).Body?
    requires forall p :: p in proxies ==> Harvested(protocol, p)
    ensures CleanResult(web, protocol, Current, maxWorkers, proxies).Returned?
  {
    forall p | p in proxies ensures CleanProxy(web, protocol, p).Returned? {
      var f: Endpoint.Fields :|
        && Endpoint.Decimal(f.a, 1, 255) && Endpoint.Decimal(f.b, 0, 255)
        && Endpoint.Decimal(f.c, 0, 255) && Endpoint.Decimal(f.d, 0, 255)
        && Endpoint.Decimal(f.port, 0, 65535)
        && p == EntryOf(protocol, f);
      EntrySplits(protocol, f);
    }
  }

  // ---------------------------------------------------------------------
  // save and load
  // ---------------------------------------------------------------------

  /** The current `save`'s file text: the entries joined by newlines, with a
      final newline. */
  function SaveText(listing: seq<string>): string
  {
    Join(listing, "\n") + "\n"
  }

  /** The older `save`'s file text: no final newline. */
  function SaveTextOlder(listing: seq<string>): string
  {
    Join(listing, "\n")
  }

  function TotalLength(xs: seq<string>): nat
  {
    if xs == [] then 0 else |xs[0]| + TotalLength(xs[1..])
  }

  /** The number `f.write` reports: every character of the entries plus one
      newline per entry (one fewer in the older format). */
  lemma {:induction false} SaveLength(listing: seq<string>)
    requires listing != []
    ensures |SaveText(listing)| == TotalLength(listing) + |listing|
    ensures |SaveTextOlder(listing)| == TotalLength(listing) + |listing| - 1
  {
    if |listing| > 1 {
      SaveLength(listing[1..]);
    }
  }

  /** `load` after `save` gives back the saved entries, in order, when none
      holds a line break. */
  lemma {:induction false} LoadSaved(listing: seq<string>)
    requires listing != []
    requires forall i :: 0 <= i < |listing| ==> NoLineBreak(listing[i])
    ensures SplitLines(SaveText(listing)) == listing
  {
    if |listing| == 1 {
      assert SaveText(listing) == listing[0] + "\n" + "";
      SplitLinesLine(listing[0], "");
    } else {
      LoadSaved(listing[1..]);
      assert SaveText(listing) == listing[0] + "\n" + SaveText(listing[1..]);
      SplitLinesLine(listing[0], SaveText(listing[1..]));
    }
  }

  /** The older format reads back the same way, provided the last entry is
      not empty (an empty last entry would leave the text ending in a line
      break, which `splitlines` does not count as a line). */
  lemma {:induction false} LoadSavedOlder(listing: seq<string>)
    requires listing != [] && listing[|listing| - 1] != ""
    requires forall i :: 0 <= i < |listing| ==> NoLineBreak(listing[i])
    ensures SplitLines(SaveTextOlder(listing)) == listing
  {
    if |listing| == 1 {
      SplitLinesLast(listing[0]);
    } else {
      LoadSavedOlder(listing[1..]);
      assert SaveTextOlder(listing) == listing[0] + "\n" + SaveTextOlder(listing[1..]);
      SplitLinesLine(listing[0], SaveTextOlder(listing[1..]));
    }
  }

  // ---------------------------------------------------------------------
  // verify: the host map and the chunks
  // ---------------------------------------------------------------------

  /** Each proxy split into `[host, port]`, in iteration order; the first
      that does not split in two makes `dict(...)` raise ValueError. */
  function Pairs(protocol: string, order: seq<string>): (r: Outcome<seq<(string, string)>>)
    ensures r.Returned? <==> forall i :: 0 <= i < |order| ==> SplitProxy(protocol, order[i]).Returned?
    ensures r.Returned? ==> |r.value| == |order|
                            && forall i :: 0 <= i < |order| ==> r.value[i] == SplitProxy(protocol, order[i]).value
    ensures r.Raised? ==> r.error == ValueError
  {
    if order == [] then Returned([])
    else
      match SplitProxy(protocol, order[0])
      case Raised(e) => Raised(e)
      case Returned(kv) =>
        match Pairs(protocol, order[1..])
        case Raised(e) =>
          SplitsTail(protocol, order);
          Raised(e)
        case Returned(rest) =>
          SplitsCons(protocol, order, kv, rest);
          Returned([kv] + rest)
  }

  lemma {:induction false} SplitsTail(protocol: string, order: seq<string>)
    requires |order| > 0
    requires !forall i :: 0 <= i < |order| - 1 ==> SplitProxy(protocol, order[1..][i]).Returned?
    ensures !forall i :: 0 <= i < |order| ==> SplitProxy(protocol, order[i]).Returned?
  {
    var j :| 0 <= j < |order| - 1 && !SplitProxy(protocol, order[1..][j]).Returned?;
    assert order[1..][j] == order[j + 1];
  }

  lemma {:induction false} SplitsCons(protocol: string, order: seq<string>, kv: (string, string), rest: seq<(string, string)>)
    requires |order| > 0 && SplitProxy(protocol, order[0]) == Returned(kv)
    requires forall i :: 0 <= i < |order| - 1 ==> SplitProxy(protocol, order[1..][i]).Returned?
    requires |rest| == |order| - 1
    requires forall i :: 0 <= i < |order| - 1 ==> rest[i] == SplitProxy(protocol, order[1..][i]).value
    ensures forall i :: 0 <= i < |order| ==> SplitProxy(protocol, order[i]).Returned?
    ensures forall i :: 0 <= i < |order| ==> ([kv] + rest)[i] == SplitProxy(protocol, order[i]).value
  {
    forall i | 1 <= i < |order|
      ensures SplitProxy(protocol, order[i]).Returned? && ([kv] + rest)[i] == SplitProxy(protocol, order[i]).value
    {
      assert order[i] == order[1..][i - 1];
    }
  }

  /** The hosts, `[host for host, _ in pairs]`. */
  function Firsts(ps: seq<(string, string)>): (r: seq<string>)
    ensures |r| == |ps| && forall i :: 0 <= i < |ps| ==> r[i] == ps[i].0
  {
    if ps == [] then [] else [ps[0].0] + Firsts(ps[1..])
  }

  /** The distinct elements of `xs`, each where it first occurs: the key
      order of a dict built from `xs`. */
  function Distinct<T(==)>(xs: seq<T>): seq<T>
  {
    if xs == [] then []
    else
      var front := Distinct(xs[..|xs| - 1]);
      if xs[|xs| - 1] in front then front else front + [xs[|xs| - 1]]
  }

  predicate NoDuplicates<T(==)>(xs: seq<T>)
  {
    forall i, j :: 0 <= i < j < |xs| ==> xs[i] != xs[j]
  }

  /** `Distinct` keeps every element once and nothing else. */
  lemma {:induction false} DistinctElements<T>(xs: seq<T>)
    ensures NoDuplicates(Distinct(xs))
    ensures forall x :: x in Distinct(xs) <==> x in xs
  {
    if xs != [] {
      var init := xs[..|xs| - 1];
      DistinctElements(init);
      assert xs == init + [xs[|xs| - 1]];
    }
  }

  /** `dict(pairs)`: a later pair for the same host overwrites an earlier one. */
  function Dict(ps: seq<(string, string)>): map<string, string>
  {
    if ps == [] then map[]
    else Dict(ps[..|ps| - 1])[ps[|ps| - 1].0 := ps[|ps| - 1].1]
  }

  /** `list(ips.keys())`: each host once, in first-insertion order. */
  function Keys(ps: seq<(string, string)>): seq<string>
  {
    Distinct(Firsts(ps))
  }

  /** The map has exactly the hosts of the pairs, and each host maps to the
      port of its last pair. */
  lemma {:induction false} DictLastWins(ps: seq<(string, string)>)
    ensures forall h :: h in Dict(ps) <==> exists i :: 0 <= i < |ps| && ps[i].0 == h
    ensures forall i :: 0 <= i < |ps| && (forall j :: i < j < |ps| ==> ps[j].0 != ps[i].0) ==>
              Dict(ps)[ps[i].0] == ps[i].1
  {
    if ps != [] {
      var init := ps[..|ps| - 1];
      DictLastWins(init);
      forall h ensures h in Dict(ps) <==> exists i :: 0 <= i < |ps| && ps[i].0 == h {
        if h in Dict(init) {
          var i :| 0 <= i < |init| && init[i].0 == h;
          assert ps[i] == init[i];
        }
        if i :| 0 <= i < |ps| && ps[i].0 == h {
          if i < |init| { assert init[i] == ps[i]; }
        }
      }
      forall i | 0 <= i < |ps| && (forall j :: i < j < |ps| ==> ps[j].0 != ps[i].0)
        ensures Dict(ps)[ps[i].0] == ps[i].1
      {
        if i < |ps| - 1 {
          assert init[i] == ps[i];
          assert forall j :: i < j < |init| ==> init[j] == ps[j];
        }
      }
    }
  }

  /** The keys listed are the map's keys, each once. */
  lemma {:induction false} KeysOfDict(ps: seq<(string, string)>)
    ensures NoDuplicates(Keys(ps))
    ensures forall h :: h in Keys(ps) <==> h in Dict(ps)
  {
    DistinctElements(Firsts(ps));
    DictLastWins(ps);
    forall h ensures h in Keys(ps) <==> h in Dict(ps) {
      if h in Firsts(ps) {
        var i :| 0 <= i < |ps| && Firsts(ps)[i] == h;
      }
      if i :| 0 <= i < |ps| && ps[i].0 == h {
        assert Firsts(ps)[i] == h;
      }
    }
  }

  /** `[xs[x:x + n] for x in range(0, len(xs), n)]` for a positive step. */
  function ChunksOf<T>(xs: seq<T>, n: nat): seq<seq<T>>
    requires n > 0
    decreases |xs|
  {
    if xs == [] then []
    else if |xs| <= n then [xs]
    else [xs[..n]] + ChunksOf(xs[n..], n)
  }

  /** The same comprehension for any step: `range` raises ValueError for a
      zero step and is empty for a negative one. */
  function Chunks<T>(xs: seq<T>, n: int): Outcome<seq<seq<T>>>
  {
    if n == 0 then Raised(ValueError)
    else if n < 0 then Returned([])
    else Returned(ChunksOf(xs, n))
  }

  function Flatten<T>(xss: seq<seq<T>>): seq<T>
  {
    if xss == [] then [] else xss[0] + Flatten(xss[1..])
  }

  /** The chunks partition the list in order: none is empty, none is
      longer than `n`, all but the last hold exactly `n`, and together they
      give back the list. */
  lemma {:induction false} ChunksPartition<T>(xs: seq<T>, n: nat)
    requires n > 0
    ensures var cs := ChunksOf(xs, n);
      && Flatten(cs) == xs
      && (forall i :: 0 <= i < |cs| ==> 0 < |cs[i]| <= n)
      && (forall i :: 0 <= i < |cs| - 1 ==> |cs[i]| == n)
    decreases |xs|
  {
    if |xs| > n {
      ChunksPartition(xs[n..], n);
      var cs := ChunksOf(xs, n);
      assert cs[1..] == ChunksOf(xs[n..], n);
      assert xs[..n] + xs[n..] == xs;
    } else if xs != [] {
      assert ChunksOf(xs, n) == [xs];
      assert Flatten([xs]) == xs + [];
    }
  }

  /** There are `ceil(len(xs) / n)` chunks. */
  lemma {:induction false} ChunksCount<T>(xs: seq<T>, n: nat)
    requires n > 0
    ensures |ChunksOf(xs, n)| == (|xs| + n - 1) / n
    decreases |xs|
  {
    if |xs| > n {
      ChunksCount(xs[n..], n);
      var k := |xs[n..]| + n - 1;
      assert |xs| + n - 1 == k + n;
      DivStep(k, n);
    } else if xs != [] {
      DivStep(|xs| - 1, n);
      assert (|xs| - 1) / n == 0;
    }
  }

  lemma {:induction false} MulBound(d: int, n: int)
    requires n >= 0
    ensures d >= 1 ==> d * n >= n
    ensures d <= -1 ==> d * n <= -n
  {
  }

  lemma {:induction false} DivStep(k: nat, n: nat)
    requires n > 0
    ensures (k + n) / n == k / n + 1
  {
    var q, r := k / n, k % n;
    var Q, R := (k + n) / n, (k + n) % n;
    assert k == q * n + r && 0 <= r < n;
    assert k + n == Q * n + R && 0 <= R < n;
    var d := Q - q - 1;
    assert d * n == Q * n - q * n - n;
    assert d * n == r - R;
    MulBound(d, n);
  }

  // ---------------------------------------------------------------------
  // verify: one chunk, then the run over all chunks
  // ---------------------------------------------------------------------

  /** The detection service found no proxy behind this address. */
  predicate Undetected(a: Answer)
  {
    a.status == "success" && !a.proxy
  }

  /** `f"{protocol}://{host}:{port}"` */
  function Offered(protocol: string, host: string, port: string): string
  {
    protocol + "://" + host + ":" + port
  }

  /** The comprehension `verify` feeds to `update`: the undetected answers,
      each with the port the map holds for it; an undetected answer whose
      host is not in the map raises KeyError. */
  function Accepted(protocol: string, ips: map<string, string>, answers: seq<Answer>): (r: Outcome<set<string>>)
    ensures r.Raised? ==> r.error == KeyError
  {
    if answers == [] then Returned({})
    else
      var a := answers[0];
      if !Undetected(a) then Accepted(protocol, ips, answers[1..])
      else if a.query !in ips then Raised(KeyError)
      else
        match Accepted(protocol, ips, answers[1..])
        case Raised(e) => Raised(e)
        case Returned(rest) => Returned({Offered(protocol, a.query, ips[a.query])} + rest)
  }

  /** The filter succeeds exactly when every undetected host is in the map,
      and then yields exactly the undetected answers with their ports. */
  lemma {:induction false} AcceptedIff(protocol: string, ips: map<string, string>, answers: seq<Answer>)
    ensures Accepted(protocol, ips, answers).Returned? <==>
      forall i :: 0 <= i < |answers| && Undetected(answers[i]) ==> answers[i].query in ips
    ensures Accepted(protocol, ips, answers).Returned? ==> forall e ::
      e in Accepted(protocol, ips, answers).value <==>
        exists i :: 0 <= i < |answers| && Undetected(answers[i]) && answers[i].query in ips
                    && e == Offered(protocol, answers[i].query, ips[answers[i].query])
  {
    if answers != [] {
      var tail := answers[1..];
      AcceptedIff(protocol, ips, tail);
      assert forall i :: 1 <= i < |answers| ==> answers[i] == tail[i - 1];
      var r := Accepted(protocol, ips, answers);
      if r.Returned? {
        forall e | e in r.value
          ensures exists i :: 0 <= i < |answers| && Undetected(answers[i]) && answers[i].query in ips
                    && e == Offered(protocol, answers[i].query, ips[answers[i].query])
        {
          if Accepted(protocol, ips, tail).Returned? && e in Accepted(protocol, ips, tail).value {
            var j :| 0 <= j < |tail| && Undetected(tail[j]) && tail[j].query in ips
                     && e == Offered(protocol, tail[j].query, ips[tail[j].query]);
            assert answers[j + 1] == tail[j];
          }
        }
      }
    }
  }

  /** Something `verify` does that leaves a trace: posting a chunk, or
      sleeping for a number of seconds. */
  datatype Event = Post(chunk: seq<string>) | Sleep(seconds: int)

  /** How one chunk ends: go on with what it added, return early, or raise. */
  datatype StepEnd = Next(added: set<string>) | Abort | Crash(error: Error)

  datatype Step = Step(end: StepEnd, events: seq<Event>)

  /** The pause after a response: none unless `int(X-Rl) == 0`, then
      `int(X-Ttl) + margin` seconds; `int()` raises ValueError on a bad
      header, and so does `sleep` on a negative duration. */
  function Pause(remaining: int, ttl: string, margin: int): (r: Outcome<seq<Event>>)
    ensures r.Raised? ==> r.error == ValueError
    ensures r.Returned? ==> |r.value| <= 1 && forall ev :: ev in r.value ==> ev.Sleep? && ev.seconds >= 0
  {
    if remaining != 0 then Returned([])
    else
      match PyInt(ttl)
      case None => Raised(ValueError)
      case Some(s) => if s + margin < 0 then Raised(ValueError) else Returned([Sleep(s + margin)])
  }

  /** One pass of `verify`'s loop body for `chunk` and the service's reply.
      `margin` is the extra sleep: the timeout in the current revision, 0 in
      the older one. */
  function VerifyStep(protocol: string, ips: map<string, string>, margin: int, chunk: seq<string>, reply: Reply): (st: Step)
    ensures 1 <= |st.events| <= 2 && st.events[0] == Post(chunk)
    ensures |st.events| == 2 ==> st.events[1].Sleep?
  {
    var posted := [Post(chunk)];
    match reply
    case PostFailed => Step(Abort, posted)
    case Response(ok, rl, ttl, body) =>
      if !ok then Step(Abort, posted)
      else if rl.None? || ttl.None? then Step(Crash(KeyError), posted)
      else
        match PyInt(rl.value)
        case None => Step(Crash(ValueError), posted)
        case Some(remaining) =>
          match Pause(remaining, ttl.value, margin)
          case Raised(e) => Step(Crash(e), posted)
          case Returned(slept) =>
            match body
            case None => Step(Crash(ValueError), posted + slept)
            case Some(answers) =>
              match Accepted(protocol, ips, answers)
              case Raised(e) => Step(Crash(e), posted + slept)
              case Returned(s) => Step(Next(s), posted + slept)
  }

  /** A reply that passed every header check: the step ends as the JSON
      decoding and the result filter do, after the post and the pause. */
  lemma {:induction false} StepReads(protocol: string, ips: map<string, string>, margin: int, chunk: seq<string>, reply: Reply)
    requires reply.Response? && reply.ok && reply.rl.Some? && reply.ttl.Some?
    requires PyInt(reply.rl.value).Some?
    requires Pause(PyInt(reply.rl.value).value, reply.ttl.value, margin).Returned?
    ensures var events := [Post(chunk)] + Pause(PyInt(reply.rl.value).value, reply.ttl.value, margin).value;
      VerifyStep(protocol, ips, margin, chunk, reply) ==
        if reply.body.None? then Step(Crash(ValueError), events)
        else match Accepted(protocol, ips, reply.body.value)
          case Raised(e) => Step(Crash(e), events)
          case Returned(s) => Step(Next(s), events)
  {
  }

  /** The rate-limit rule: after an ok response carrying both headers with
      an integer `X-Rl`, `verify` does not sleep when `int(X-Rl)` is not 0,
      whatever `X-Ttl` holds; when it is 0, it sleeps `int(X-Ttl) + margin`
      seconds if that is an integer and not negative, and otherwise raises
      ValueError with nothing but the post logged. */
  lemma {:induction false} SleepRule(protocol: string, ips: map<string, string>, margin: int, chunk: seq<string>, reply: Reply)
    requires reply.Response? && reply.ok && reply.rl.Some? && reply.ttl.Some?
    requires PyInt(reply.rl.value).Some?
    ensures var st := VerifyStep(protocol, ips, margin, chunk, reply);
      var ttl := PyInt(reply.ttl.value);
      && (PyInt(reply.rl.value).value != 0 ==> st.events == [Post(chunk)])
      && (PyInt(reply.rl.value).value == 0 && ttl.Some? && ttl.value + margin >= 0 ==>
            st.events == [Post(chunk), Sleep(ttl.value + margin)])
      && (PyInt(reply.rl.value).value == 0 && (ttl.None? || ttl.value + margin < 0) ==>
            st == Step(Crash(ValueError), [Post(chunk)]))
  {
  }

  /** How the whole run ended, the events in order, and what was added.
      Chunks answered before an early return or an exception keep their
      additions, as `update` is applied to the set in place. */
  datatype RunEnd = Completed | Aborted | Crashed(error: Error)

  datatype Run = Run(end: RunEnd, events: seq<Event>, added: set<string>)

  function StepOf(web: Web, protocol: string, ips: map<string, string>, margin: int, url: string, chunk: seq<string>): Step
  {
    VerifyStep(protocol, ips, margin, chunk, web.post(url, chunk))
  }

  /** `verify`'s loop over the chunks. */
  function RunChunks(web: Web, protocol: string, ips: map<string, string>, margin: int, url: string, chunks: seq<seq<string>>): Run
  {
    if chunks == [] then Run(Completed, [], {})
    else
      var st := StepOf(web, protocol, ips, margin, url, chunks[0]);
      match st.end
      case Abort => Run(Aborted, st.events, {})
      case Crash(e) => Run(Crashed(e), st.events, {})
      case Next(s) =>
        var rest := RunChunks(web, protocol, ips, margin, url, chunks[1..]);
        Run(rest.end, st.events + rest.events, s + rest.added)
  }

  /** The step each chunk would take, were it posted. */
  function Steps(web: Web, protocol: string, ips: map<string, string>, margin: int, url: string, chunks: seq<seq<string>>): seq<Step>
  {
    seq(|chunks|, i requires 0 <= i < |chunks| => StepOf(web, protocol, ips, margin, url, chunks[i]))
  }

  /** The same loop over steps already taken, from step `k` on: the first
      one that does not go on ends the run, and what was added before it
      stays. */
  function RunAt(steps: seq<Step>, k: nat): Run
    decreases |steps| - k
  {
    if k >= |steps| then Run(Completed, [], {})
    else
      match steps[k].end
      case Abort => Run(Aborted, steps[k].events, {})
      case Crash(e) => Run(Crashed(e), steps[k].events, {})
      case Next(s) =>
        var rest := RunAt(steps, k + 1);
        Run(rest.end, steps[k].events + rest.events, s + rest.added)
  }

  /** Running the chunks from `k` on is running their steps from `k` on. */
  lemma {:induction false} RunChunksSteps(web: Web, protocol: string, ips: map<string, string>, margin: int, url: string, chunks: seq<seq<string>>, k: nat)
    requires k <= |chunks|
    ensures RunChunks(web, protocol, ips, margin, url, chunks[k..]) == RunAt(Steps(web, protocol, ips, margin, url, chunks), k)
    decreases |chunks| - k
  {
    if k < |chunks| {
      assert chunks[k..][0] == chunks[k];
      assert chunks[k..][1..] == chunks[k + 1..];
      RunChunksSteps(web, protocol, ips, margin, url, chunks, k + 1);
    }
  }

  lemma AppendAssoc<T>(a: seq<T>, b: seq<T>, c: seq<T>)
    ensures (a + b) + c == a + (b + c)
  {
  }

  /** The chunks posted, in order. */
  function Posts(events: seq<Event>): seq<seq<string>>
  {
    if events == [] then []
    else if events[0].Post? then [events[0].chunk] + Posts(events[1..])
    else Posts(events[1..])
  }

  lemma {:induction false} PostsConcat(a: seq<Event>, b: seq<Event>)
    ensures Posts(a + b) == Posts(a) + Posts(b)
  {
    if a != [] {
      assert (a + b)[1..] == a[1..] + b;
      PostsConcat(a[1..], b);
    } else {
      assert a + b == b;
    }
  }

  lemma {:induction false} PostsOfStep(st: Step, chunk: seq<string>)
    requires 1 <= |st.events| <= 2 && st.events[0] == Post(chunk)
    requires |st.events| == 2 ==> st.events[1].Sleep?
    ensures Posts(st.events) == [chunk]
  {
    var evs := st.events;
    if |evs| == 1 {
      assert evs[1..] == [];
    } else {
      assert evs[1..][1..] == [];
      assert Posts(evs[1..]) == Posts(evs[1..][1..]);
    }
  }

  /** The steps of the first `k` chunks all go on. */
  predicate NextUpTo(web: Web, protocol: string, ips: map<string, string>, margin: int, url: string, chunks: seq<seq<string>>, k: nat)
  {
    forall i :: 0 <= i < k && i < |chunks| ==> StepOf(web, protocol, ips, margin, url, chunks[i]).end.Next?
  }

  /** Each step posts its own chunk first and at most sleeps after it. */
  predicate PostedInOrder(steps: seq<Step>, chunks: seq<seq<string>>)
  {
    && |steps| == |chunks|
    && forall i :: 0 <= i < |steps| ==>
      && 1 <= |steps[i].events| <= 2 && steps[i].events[0] == Post(chunks[i])
      && (|steps[i].events| == 2 ==> steps[i].events[1].Sleep?)
  }

  lemma StepsPostInOrder(web: Web, protocol: string, ips: map<string, string>, margin: int, url: string, chunks: seq<seq<string>>)
    ensures PostedInOrder(Steps(web, protocol, ips, margin, url, chunks), chunks)
  {
  }

  /** From step `k` on, the run completes exactly when every step goes on,
      and then it posts every chunk from `k` on. */
  lemma {:induction false} RunAtCompletes(steps: seq<Step>, chunks: seq<seq<string>>, k: nat)
    requires PostedInOrder(steps, chunks) && k <= |steps|
    ensures RunAt(steps, k).end == Completed <==> forall i :: k <= i < |steps| ==> steps[i].end.Next?
    ensures (forall i :: k <= i < |steps| ==> steps[i].end.Next?) ==> Posts(RunAt(steps, k).events) == chunks[k..]
    decreases |steps| - k
  {
    if k < |steps| {
      RunAtCompletes(steps, chunks, k + 1);
      if steps[k].end.Next? {
        PostsConcat(steps[k].events, RunAt(steps, k + 1).events);
        PostsOfStep(steps[k], chunks[k]);
        assert [chunks[k]] + chunks[k + 1..] == chunks[k..];
      }
    }
  }

  /** From step `k` on, the first step `j` that does not go on ends the
      run as it ends, and the chunks from `k` to `j` are posted. */
  lemma {:induction false} RunAtStops(steps: seq<Step>, chunks: seq<seq<string>>, k: nat, j: nat)
    requires PostedInOrder(steps, chunks) && k <= j < |steps|
    requires forall i :: k <= i < j ==> steps[i].end.Next?
    requires !steps[j].end.Next?
    ensures Posts(RunAt(steps, k).events) == chunks[k..j + 1]
    ensures steps[j].end.Abort? ==> RunAt(steps, k).end == Aborted
    ensures steps[j].end.Crash? ==> RunAt(steps, k).end == Crashed(steps[j].end.error)
    decreases j - k
  {
    PostsOfStep(steps[k], chunks[k]);
    if k == j {
      assert chunks[k..k + 1] == [chunks[k]];
    } else {
      RunAtStops(steps, chunks, k + 1, j);
      PostsConcat(steps[k].events, RunAt(steps, k + 1).events);
      assert [chunks[k]] + chunks[k + 1..j + 1] == chunks[k..j + 1];
    }
  }

  /** `verify` completes exactly when every chunk's step goes on, and then
      it has posted every chunk, in order. */
  lemma {:induction false} RunCompletes(web: Web, protocol: string, ips: map<string, string>, margin: int, url: string, chunks: seq<seq<string>>)
    ensures var run := RunChunks(web, protocol, ips, margin, url, chunks);
      run.end == Completed <==> NextUpTo(web, protocol, ips, margin, url, chunks, |chunks|)
    ensures NextUpTo(web, protocol, ips, margin, url, chunks, |chunks|) ==>
      Posts(RunChunks(web, protocol, ips, margin, url, chunks).events) == chunks
  {
    var steps := Steps(web, protocol, ips, margin, url, chunks);
    RunChunksSteps(web, protocol, ips, margin, url, chunks, 0);
    assert chunks[0..] == chunks;
    StepsPostInOrder(web, protocol, ips, margin, url, chunks);
    RunAtCompletes(steps, chunks, 0);
  }

  /** At the first chunk whose step does not go on, `verify` returns or
      raises as that step does, and no later chunk is posted. */
  lemma {:induction false} RunStopsAt(web: Web, protocol: string, ips: map<string, string>, margin: int, url: string, chunks: seq<seq<string>>, k: nat)
    requires k < |chunks| && NextUpTo(web, protocol, ips, margin, url, chunks, k)
    requires !StepOf(web, protocol, ips, margin, url, chunks[k]).end.Next?
    ensures var run := RunChunks(web, protocol, ips, margin, url, chunks);
      var last := StepOf(web, protocol, ips, margin, url, chunks[k]).end;
      && Posts(run.events) == chunks[..k + 1]
      && (last.Abort? ==> run.end == Aborted)
      && (last.Crash? ==> run.end == Crashed(last.error))
  {
    var steps := Steps(web, protocol, ips, margin, url, chunks);
    RunChunksSteps(web, protocol, ips, margin, url, chunks, 0);
    assert chunks[0..] == chunks;
    assert chunks[0..k + 1] == chunks[..k + 1];
    StepsPostInOrder(web, protocol, ips, margin, url, chunks);
    RunAtStops(steps, chunks, 0, k);
  }

  /** One chunk that goes on, then the rest of the run. */
  lemma {:induction false} RunUnfold(web: Web, protocol: string, ips: map<string, string>, margin: int, url: string, chunks: seq<seq<string>>)
    requires chunks != [] && StepOf(web, protocol, ips, margin, url, chunks[0]).end.Next?
    ensures var run := RunChunks(web, protocol, ips, margin, url, chunks);
      var rest := RunChunks(web, protocol, ips, margin, url, chunks[1..]);
      run.end == rest.end && Posts(run.events) == [chunks[0]] + Posts(rest.events)
  {
    var st := StepOf(web, protocol, ips, margin, url, chunks[0]);
    var rest := RunChunks(web, protocol, ips, margin, url, chunks[1..]);
    PostsOfStep(st, chunks[0]);
    PostsConcat(st.events, rest.events);
  }

  /** Everything a run adds was accepted in answer to a chunk the run
      reached. */
  lemma {:induction false} RunAddsAccepted(web: Web, protocol: string, ips: map<string, string>, margin: int, url: string, chunks: seq<seq<string>>, e: string)
    requires e in RunChunks(web, protocol, ips, margin, url, chunks).added
    ensures exists i ::
      && 0 <= i < |chunks| && NextUpTo(web, protocol, ips, margin, url, chunks, i)
      && StepOf(web, protocol, ips, margin, url, chunks[i]).end.Next?
      && e in StepOf(web, protocol, ips, margin, url, chunks[i]).end.added
  {
    var st := StepOf(web, protocol, ips, margin, url, chunks[0]);
    var tail := chunks[1..];
    if e in st.end.added {
      assert NextUpTo(web, protocol, ips, margin, url, chunks, 0);
    } else {
      RunAddsAccepted(web, protocol, ips, margin, url, tail, e);
      var i :| 0 <= i < |tail| && NextUpTo(web, protocol, ips, margin, url, tail, i)
        && StepOf(web, protocol, ips, margin, url, tail[i]).end.Next?
        && e in StepOf(web, protocol, ips, margin, url, tail[i]).end.added;
      assert tail[i] == chunks[i + 1];
      assert NextUpTo(web, protocol, ips, margin, url, chunks, i + 1) by {
        forall j | 0 <= j < i + 1 && j < |chunks| ensures StepOf(web, protocol, ips, margin, url, chunks[j]).end.Next? {
          if j > 0 { assert chunks[j] == tail[j - 1]; }
        }
      }
    }
  }

  /** Every sleep in `evs` comes right after a post. */
  predicate SleepsAfterPosts(evs: seq<Event>)
  {
    forall i :: 0 <= i < |evs| && evs[i].Sleep? ==> i > 0 && evs[i - 1].Post?
  }

  lemma {:induction false} SleepsAfterPostsConcat(a: seq<Event>, b: seq<Event>)
    requires SleepsAfterPosts(a) && SleepsAfterPosts(b) && (b == [] || b[0].Post?)
    ensures SleepsAfterPosts(a + b)
  {
    var evs := a + b;
    forall i | 0 <= i < |evs| && evs[i].Sleep? ensures i > 0 && evs[i - 1].Post? {
      if i < |a| {
        assert evs[i] == a[i];
        assert i > 0 && evs[i - 1] == a[i - 1];
      } else {
        assert evs[i] == b[i - |a|];
        assert i - |a| > 0;
        assert evs[i - 1] == b[i - 1 - |a|];
      }
    }
  }

  /** Every sleep comes right after the post whose reply asked for it. */
  lemma {:induction false} SleepsFollowPosts(web: Web, protocol: string, ips: map<string, string>, margin: int, url: string, chunks: seq<seq<string>>)
    ensures var evs := RunChunks(web, protocol, ips, margin, url, chunks).events;
      (evs == [] || evs[0].Post?) && SleepsAfterPosts(evs)
  {
    if chunks != [] {
      var st := StepOf(web, protocol, ips, margin, url, chunks[0]);
      assert SleepsAfterPosts(st.events);
      if st.end.Next? {
        var rest := RunChunks(web, protocol, ips, margin, url, chunks[1..]);
        SleepsFollowPosts(web, protocol, ips, margin, url, chunks[1..]);
        SleepsAfterPostsConcat(st.events, rest.events);
      }
    }
  }

  /** `verify` as a whole: build the map (ValueError on an entry that does
      not split in two), chunk its keys, then run the chunks. */
  function VerifyPlan(web: Web, protocol: string, margin: int, url: string, batch: int, order: seq<string>): Run
  {
    match Pairs(protocol, order)
    case Raised(e) => Run(Crashed(e), [], {})
    case Returned(ps) =>
      match Chunks(Keys(ps), batch)
      case Raised(e) => Run(Crashed(e), [], {})
      case Returned(cs) => RunChunks(web, protocol, Dict(ps), margin, url, cs)
  }

  /** What one pass of the pipeline leaves: the first exception, if any,
      the set `get` left when `get` finished (the set `verify` lists),
      the set after the last stage that ran, and the events logged. */
  datatype RoundOut = RoundOut(error: Option<Error>, gathered: Option<set<string>>, proxies: set<string>, events: seq<Event>)

  /** One pass of the pipeline over the registry entries `sources`,
      starting from the set `start`: `get`, then `verify` over `order` (the
      set's iteration order), then `clean`. `verify`'s False does not stop
      the pass; an exception does. A round of `benchmark_sources` is a pass
      with one source; `refresh` is a pass with the protocol's sources. */
  function Round(web: Web, protocol: string, timeout: int, sources: seq<Source>, start: set<string>, order: seq<string>): RoundOut
  {
    var g := Gather(web, protocol, Current, sources);
    var got := start + g.added;
    if g.error.Some? then RoundOut(g.error, None, got, [])
    else
      var run := VerifyPlan(web, protocol, timeout, ISPROXY_URL_BATCH, MAX_ISPROXY_BATCH, order);
      var verified := got + run.added;
      match run.end
      case Crashed(e) => RoundOut(Some(e), Some(got), verified, run.events)
      case _ =>
        match CleanResult(web, protocol, Current, MAX_CHECK_WORKERS, verified)
        case Raised(e) => RoundOut(Some(e), Some(got), verified, run.events)
        case Returned(kept) => RoundOut(None, Some(got), kept, run.events)
  }

  /** A round that finishes counts exactly the proxies of the gathered and
      verified set that pass `clean`'s checks; it fails exactly when `get`,
      `verify` or `clean` raises; `verify` lists the set `get` left. */
  lemma {:induction false} RoundCounts(web: Web, protocol: string, timeout: int, sources: seq<Source>, start: set<string>, order: seq<string>)
    ensures var g := Gather(web, protocol, Current, sources);
      var run := VerifyPlan(web, protocol, timeout, ISPROXY_URL_BATCH, MAX_ISPROXY_BATCH, order);
      var verified := start + g.added + run.added;
      var out := Round(web, protocol, timeout, sources, start, order);
      && (out.gathered.Some? <==> g.error.None?)
      && (out.gathered.Some? ==> out.gathered.value == start + g.added)
      && (out.error.None? <==>
            g.error.None? && !run.end.Crashed? && CleanResult(web, protocol, Current, MAX_CHECK_WORKERS, verified).Returned?)
      && (out.error.None? ==>
            && web.fetch(BANNED_URL).Body?
            && forall p :: p in out.proxies <==> p in verified && Kept(web, protocol, web.fetch(BANNED_URL).text, p))
  {
    var g := Gather(web, protocol, Current, sources);
    var run := VerifyPlan(web, protocol, timeout, ISPROXY_URL_BATCH, MAX_ISPROXY_BATCH, order);
    var verified := start + g.added + run.added;
    var res := CleanResult(web, protocol, Current, MAX_CHECK_WORKERS, verified);
  }

  /** The round by the stage at which it stops. */
  lemma {:induction false} RoundStages(web: Web, protocol: string, timeout: int, sources: seq<Source>, start: set<string>, order: seq<string>)
    ensures var g := Gather(web, protocol, Current, sources);
      var got := start + g.added;
      var run := VerifyPlan(web, protocol, timeout, ISPROXY_URL_BATCH, MAX_ISPROXY_BATCH, order);
      var verified := got + run.added;
      var out := Round(web, protocol, timeout, sources, start, order);
      && (g.error.Some? ==> out == RoundOut(g.error, None, got, []))
      && (g.error.None? && run.end.Crashed? ==> out == RoundOut(Some(run.end.error), Some(got), verified, run.events))
      && (g.error.None? && !run.end.Crashed? ==>
            var res := CleanResult(web, protocol, Current, MAX_CHECK_WORKERS, verified);
            && (res.Raised? ==> out == RoundOut(Some(res.error), Some(got), verified, run.events))
            && (res.Returned? ==> out == RoundOut(None, Some(got), res.value, run.events)))
  {
  }

  /** The set after `outs`, the rounds run so far, starting from `start`. */
  function After(start: set<string>, outs: seq<RoundOut>): set<string>
  {
    if outs == [] then start else outs[|outs| - 1].proxies
  }

  /** The rounds for `sources` in turn, each starting from the set the
      previous one left, round `i` listing the set in `orders[i]`. */
  function Rounds(web: Web, protocol: string, timeout: int, sources: seq<Source>, start: set<string>, orders: seq<seq<string>>): (outs: seq<RoundOut>)
    requires |orders| == |sources|
    ensures |outs| == |sources|
    decreases |sources|
  {
    if sources == [] then []
    else
      var k := |sources| - 1;
      var prev := Rounds(web, protocol, timeout, sources[..k], start, orders[..k]);
      prev + [Round(web, protocol, timeout, [sources[k]], After(start, prev), orders[k])]
  }

  /** The events the rounds logged, in order. */
  function RoundsLog(outs: seq<RoundOut>): seq<Event>
  {
    if outs == [] then [] else outs[0].events + RoundsLog(outs[1..])
  }

  lemma {:induction false} RoundsLogSnoc(outs: seq<RoundOut>, out: RoundOut)
    ensures RoundsLog(outs + [out]) == RoundsLog(outs) + out.events
  {
    if outs == [] {
      assert ([] + [out])[1..] == [];
    } else {
      assert (outs + [out])[1..] == outs[1..] + [out];
      RoundsLogSnoc(outs[1..], out);
    }
  }

  /** Each round whose `get` finished listed, for `verify`, the set as `get`
      left it. */
  predicate Listed(outs: seq<RoundOut>, orders: seq<seq<string>>)
    requires |outs| == |orders|
  {
    forall i :: 0 <= i < |outs| && outs[i].gathered.Some? ==> Listing(orders[i], outs[i].gathered.value)
  }

  lemma {:induction false} ListedStep(outs: seq<RoundOut>, orders: seq<seq<string>>, out: RoundOut, listed: seq<string>)
    requires |outs| == |orders| && Listed(outs, orders)
    requires out.gathered.Some? ==> Listing(listed, out.gathered.value)
    ensures Listed(outs + [out], orders + [listed])
  {
    forall i | 0 <= i < |outs| + 1 && (outs + [out])[i].gathered.Some?
      ensures Listing((orders + [listed])[i], (outs + [out])[i].gathered.value)
    {
      if i < |outs| {
        assert (outs + [out])[i] == outs[i] && (orders + [listed])[i] == orders[i];
      }
    }
  }

  /** Round `k` starts from the set round `k - 1` left. */
  lemma {:induction false} RoundsChain(web: Web, protocol: string, timeout: int, sources: seq<Source>, start: set<string>, orders: seq<seq<string>>, k: nat)
    requires |orders| == |sources| && k < |sources|
    ensures var outs := Rounds(web, protocol, timeout, sources, start, orders);
      outs[k] == Round(web, protocol, timeout, [sources[k]], After(start, outs[..k]), orders[k])
    decreases |sources|
  {
    var n := |sources| - 1;
    var outs := Rounds(web, protocol, timeout, sources, start, orders);
    var prev := Rounds(web, protocol, timeout, sources[..n], start, orders[..n]);
    var last := Round(web, protocol, timeout, [sources[n]], After(start, prev), orders[n]);
    assert outs == prev + [last];
    if k < n {
      RoundsChain(web, protocol, timeout, sources[..n], start, orders[..n], k);
      assert sources[..n][k] == sources[k] && orders[..n][k] == orders[k];
      assert outs[..k] == prev[..k] && outs[k] == prev[k];
    } else {
      assert outs[..k] == prev;
    }
  }

  /** One more round extends the rounds, their log and their listings. */
  lemma {:induction false} RoundsStep(web: Web, protocol: string, timeout: int, order: seq<Source>, i: nat, init: set<string>,
                                      orders: seq<seq<string>>, listed: seq<string>, outs: seq<RoundOut>, out: RoundOut)
    requires i < |order| && |orders| == i
    requires outs == Rounds(web, protocol, timeout, order[..i], init, orders)
    requires out == Round(web, protocol, timeout, [order[i]], After(init, outs), listed)
    ensures outs + [out] == Rounds(web, protocol, timeout, order[..i + 1], init, orders + [listed])
    ensures After(init, outs + [out]) == out.proxies
    ensures RoundsLog(outs + [out]) == RoundsLog(outs) + out.events
  {
    RoundsLogSnoc(outs, out);
    assert order[..i + 1][..i] == order[..i] && order[..i + 1][i] == order[i];
    assert (orders + [listed])[..i] == orders;
  }

  /** The sizes recorded for the first `|outs|` entries of `order`; the
      rest still hold their initial value. */
  ghost predicate Sized(report: map<Source, nat>, order: seq<Source>, outs: seq<RoundOut>)
  {
    && |outs| <= |order|
    && (forall s :: s in report <==> s in order)
    && (forall j :: 0 <= j < |outs| ==> report[order[j]] == |outs[j].proxies|)
  }

  /** Recording the next round's size keeps the earlier entries, because
      the entries are distinct. */
  lemma {:induction false} SizedStep(xs: seq<Source>, report: map<Source, nat>, outs: seq<RoundOut>, out: RoundOut)
    requires |outs| < |Distinct(xs)| && Sized(report, Distinct(xs), outs)
    ensures Sized(report[Distinct(xs)[|outs|] := |out.proxies|], Distinct(xs), outs + [out])
  {
    var order, i := Distinct(xs), |outs|;
    DistinctElements(xs);
    var updated := report[order[i] := |out.proxies|];
    forall j | 0 <= j < i + 1
      ensures updated[order[j]] == |(outs + [out])[j].proxies|
    {
      if j < i {
        assert order[j] != order[i];
      }
    }
  }

  /** The registry after `i` rounds: as it was, or with the last round's
      source as the protocol's only one. */
  ghost function Registered(registry: map<string, seq<Source>>, protocol: string, order: seq<Source>, i: nat): map<string, seq<Source>>
    requires i <= |order|
  {
    if i == 0 then registry else registry[protocol := [order[i - 1]]]
  }

  lemma {:induction false} RegisteredStep(registry: map<string, seq<Source>>, protocol: string, order: seq<Source>, i: nat)
    requires i < |order|
    ensures Registered(registry, protocol, order, i)[protocol := [order[i]]] == Registered(registry, protocol, order, i + 1)
  {
    if i > 0 {
      assert registry[protocol := [order[i - 1]]][protocol := [order[i]]] == registry[protocol := [order[i]]];
    }
  }

  /** No round raised. */
  ghost predicate AllReturned(outs: seq<RoundOut>)
  {
    forall i :: 0 <= i < |outs| ==> outs[i].error.None?
  }

  lemma {:induction false} AllReturnedStep(outs: seq<RoundOut>, out: RoundOut)
    requires AllReturned(outs) && out.error.None?
    ensures AllReturned(outs + [out])
  {
    forall i | 0 <= i < |outs| + 1
      ensures (outs + [out])[i].error.None?
    {
      if i < |outs| {
        assert (outs + [out])[i] == outs[i];
      }
    }
  }

  /** The state after the rounds `outs` of `benchmark_sources` over
      `order`, begun from the proxy set `init`, the log `log0` and the
      registry `registry`: the rounds are the ones `Rounds` describes,
      round `i` listing the set in `orders[i]`; the set is the one the last
      round left, the log gained every round's events in turn, and the
      protocol's sources are the last round's source alone. */
  ghost predicate Progress(web: Web, protocol: string, timeout: int, order: seq<Source>, registry: map<string, seq<Source>>,
                           init: set<string>, log0: seq<Event>, outs: seq<RoundOut>, orders: seq<seq<string>>,
                           proxies: set<string>, log: seq<Event>, sources: map<string, seq<Source>>)
  {
    && |orders| == |outs| <= |order|
    && outs == Rounds(web, protocol, timeout, order[..|outs|], init, orders)
    && proxies == After(init, outs) && log == log0 + RoundsLog(outs)
    && Listed(outs, orders)
    && sources == Registered(registry, protocol, order, |outs|)
  }

  /** One more round, begun from the set the earlier ones left, keeps
      `Progress`. */
  lemma {:induction false} ProgressStep(web: Web, protocol: string, timeout: int, order: seq<Source>, registry: map<string, seq<Source>>,
                                        init: set<string>, log0: seq<Event>, outs: seq<RoundOut>, orders: seq<seq<string>>,
                                        proxies: set<string>, log: seq<Event>, sources: map<string, seq<Source>>,
                                        listed: seq<string>, out: RoundOut)
    requires Progress(web, protocol, timeout, order, registry, init, log0, outs, orders, proxies, log, sources)
    requires |outs| < |order|
    requires out == Round(web, protocol, timeout, [order[|outs|]], proxies, listed)
    requires out.gathered.Some? ==> Listing(listed, out.gathered.value)
    ensures Progress(web, protocol, timeout, order, registry, init, log0, outs + [out], orders + [listed],
                     out.proxies, log + out.events, sources[protocol := [order[|outs|]]])
  {
    var i := |outs|;
    RoundsStep(web, protocol, timeout, order, i, init, orders, listed, outs, out);
    AppendAssoc(log0, RoundsLog(outs), out.events);
    ListedStep(outs, orders, out, listed);
    RegisteredStep(registry, protocol, order, i);
  }

  /** What `verify` returns in the current revision: True after the last
      chunk, False on an early return; an exception propagates. */
  function Verdict(end: RunEnd): Outcome<bool>
  {
    match end
    case Completed => Returned(true)
    case Aborted => Returned(false)
    case Crashed(e) => Raised(e)
  }

  /** When the map builds and the batch size is positive, a completed run
      has queried every host of the proxies exactly once, in chunks of at
      most `batch`. */
  lemma {:induction false} VerifyQueriesEveryHost(web: Web, protocol: string, margin: int, url: string, batch: int, order: seq<string>)
    requires batch > 0 && Pairs(protocol, order).Returned?
    requires VerifyPlan(web, protocol, margin, url, batch, order).end == Completed
    ensures var ps := Pairs(protocol, order).value;
      var posted := Posts(VerifyPlan(web, protocol, margin, url, batch, order).events);
      && Flatten(posted) == Keys(ps)
      && NoDuplicates(Flatten(posted))
      && (forall h :: h in Flatten(posted) <==> exists i :: 0 <= i < |order| && SplitProxy(protocol, order[i]).value.0 == h)
      && (forall i :: 0 <= i < |posted| ==> 0 < |posted[i]| <= batch)
  {
    var ps := Pairs(protocol, order).value;
    var cs := ChunksOf(Keys(ps), batch);
    RunCompletes(web, protocol, Dict(ps), margin, url, cs);
    ChunksPartition(Keys(ps), batch);
    KeysOfDict(ps);
    DictLastWins(ps);
  }

  /** A batch size that is not positive: `range` raises ValueError for 0,
      and for a negative step it is empty, so `verify` posts nothing, adds
      nothing and returns True. */
  lemma NonPositiveBatch(web: Web, protocol: string, margin: int, url: string, batch: int, order: seq<string>)
    requires Pairs(protocol, order).Returned?
    ensures batch == 0 ==> VerifyPlan(web, protocol, margin, url, batch, order) == Run(Crashed(ValueError), [], {})
    ensures batch < 0 ==> VerifyPlan(web, protocol, margin, url, batch, order) == Run(Completed, [], {})
    ensures batch < 0 ==> Verdict(VerifyPlan(web, protocol, margin, url, batch, order).end) == Returned(true)
  {
  }

  // ---------------------------------------------------------------------
  // Listing a set
  // ---------------------------------------------------------------------

  /** `xs` lists the elements of `s`, each once, in some order. */
  predicate Listing(xs: seq<string>, s: set<string>)
  {
    NoDuplicates(xs) && (forall x :: x in xs ==> x in s) && (forall x :: x in s ==> x in xs)
  }

  /** `list(s)`: the elements in the set's iteration order, which the model
      leaves open. */
  method ListOf(s: set<string>) returns (xs: seq<string>)
    ensures Listing(xs, s)
  {
    xs := [];
    var rest := s;
    while rest != {}
      invariant rest <= s
      invariant Listing(xs, s - rest)
      decreases rest
    {
      var x :| x in rest;
      xs := xs + [x];
      rest := rest - {x};
    }
  }
}
