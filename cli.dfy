/** The older `ProxyMiner` of openweb_proxy/cli.py. It shares the registry,
    the getters' shape and the pipeline of the current class (module
    `Miner`), and differs in a few places:
    - `get` catches nothing and ignores what a getter callable returns;
    - `clean` has no banned list and keeps the proxies `_clean_proxy`
      returns;
    - `verify` answers `None` where the current one answers `False`, and
      sleeps `int(X-Ttl)` seconds with no margin;
    - `load` falls back on the web only when the file is missing or empty;
    - `save` writes no final newline and answers `None` for an empty set;
    - `_get_proxies` formats the match object itself instead of group 1. */
module Cli {
  import opened PyText
  import opened Proxies
  import Endpoint

  // ---------------------------------------------------------------------
  // What `_get_proxies` adds as written: the match object's repr
  // ---------------------------------------------------------------------

  function HexDigit(n: nat): char
    requires n < 16
  {
    "0123456789abcdef"[n]
  }

  /** One character of a string's `repr` inside quotes `q`: backslash, the
      quote, tab, newline and carriage return escaped, other ASCII control
      characters as `\xhh`. */
  function ReprChar(c: char, q: char): string
  {
    if c == '\\' then "\\\\"
    else if c == q then ['\\', q]
    else if c == '\t' then "\\t"
    else if c == '\n' then "\\n"
    else if c == '\r' then "\\r"
    else if (c as int) < 32 || (c as int) == 127 then ['\\', 'x', HexDigit(c as int / 16), HexDigit(c as int % 16)]
    else [c]
  }

  function ReprBody(s: string, q: char): string
  {
    if s == [] then "" else ReprChar(s[0], q) + ReprBody(s[1..], q)
  }

  /** Python's `repr(s)`: single quotes, or double quotes when `s` holds a
      single quote and no double quote. */
  function Repr(s: string): (r: string)
    ensures |r| >= 2 && (r[0] == '\'' || r[0] == '"') && r[|r| - 1] == r[0]
  {
    var q := if '\'' in s && '"' !in s then '"' else '\'';
    [q] + ReprBody(s, q) + [q]
  }

  /** `str(m)` for a match object: its span and the text it matched. */
  function MatchRepr(t: string, m: Endpoint.Match): string
  {
    "<re.Match object; span=(" + NatString(m.start) + ", " + NatString(m.end) + "), match="
      + Repr(Slice(t, m.start, m.end)) + ">"
  }

  /** The set comprehension of the older `_get_proxies`, as written: the
      protocol, `://` and the match object's repr, for each match of the
      pattern as written. */
  function HarvestAsWritten(protocol: string, text: string): set<string>
  {
    set m | m in Endpoint.Scan(text, 0, true) :: protocol + "://" + MatchRepr(text, m)
  }

  /** As written, every entry has `<` where an endpoint's first digit
      belongs, so none of them is a proxy URL: the set is disjoint from what
      group 1 gives, and it is empty only when there is no match at all. */
  lemma {:induction false} AsWrittenEntriesAreReprs(protocol: string, text: string)
    ensures forall e :: e in HarvestAsWritten(protocol, text) ==> !Harvested(protocol, e)
    ensures HarvestAsWritten(protocol, text) !! Harvest(protocol, text)
    ensures HarvestAsWritten(protocol, text) == {} <==> Endpoint.Scan(text, 0, true) == []
  {
    AsWrittenNotHarvested(protocol, text);
    forall e | e in Harvest(protocol, text)
      ensures e !in HarvestAsWritten(protocol, text)
    {
      HarvestCanonical(protocol, text, e);
    }
    AsWrittenEmpty(protocol, text);
  }

  lemma {:induction false} AsWrittenNotHarvested(protocol: string, text: string)
    ensures forall e :: e in HarvestAsWritten(protocol, text) ==> !Harvested(protocol, e)
  {
    forall e | e in HarvestAsWritten(protocol, text)
      ensures !Harvested(protocol, e)
    {
      var m :| m in Endpoint.Scan(text, 0, true) && e == protocol + "://" + MatchRepr(text, m);
      ReprNotEntry(protocol, text, m);
    }
  }

  lemma {:induction false} AsWrittenEmpty(protocol: string, text: string)
    ensures HarvestAsWritten(protocol, text) == {} <==> Endpoint.Scan(text, 0, true) == []
  {
    var ms := Endpoint.Scan(text, 0, true);
    if ms != [] {
      assert protocol + "://" + MatchRepr(text, ms[0]) in HarvestAsWritten(protocol, text);
    }
  }

  /** A match object's repr after the protocol and `://` is no mined entry. */
  lemma {:induction false} ReprNotEntry(protocol: string, text: string, m: Endpoint.Match)
    ensures !Harvested(protocol, protocol + "://" + MatchRepr(text, m))
  {
    var e := protocol + "://" + MatchRepr(text, m);
    var k := |protocol| + 3;
    assert e[k] == '<';
    if Harvested(protocol, e) {
      var f: Endpoint.Fields :| Endpoint.Decimal(f.a, 1, 255) && e == EntryOf(protocol, f);
      EntryDigitAt(protocol, f);
      assert false;
    }
  }

  /** An entry made from group 1 has a digit right after `://`. */
  lemma {:induction false} EntryDigitAt(protocol: string, f: Endpoint.Fields)
    requires |f.a| > 0 && AllDigits(f.a)
    ensures var e := EntryOf(protocol, f); |e| > |protocol| + 3 && IsDigit(e[|protocol| + 3])
  {
    var e := EntryOf(protocol, f);
    assert e == protocol + "://" + (f.a + Endpoint.Render(f)[|f.a|..]);
  }

  // ---------------------------------------------------------------------
  // verify's answer
  // ---------------------------------------------------------------------

  /** What the older `verify` returns: True after the last chunk, None on
      an early return; an exception propagates. */
  function VerdictOlder(end: RunEnd): (r: Outcome<Option<bool>>)
    ensures r.Raised? <==> Verdict(end).Raised?
    ensures r.Raised? ==> r.error == Verdict(end).error
    ensures r == Returned(None) <==> Verdict(end) == Returned(false)
    ensures r == Returned(Some(true)) <==> Verdict(end) == Returned(true)
    ensures r != Returned(Some(false))
  {
    match end
    case Completed => Returned(Some(true))
    case Aborted => Returned(None)
    case Crashed(e) => Raised(e)
  }

  /** The two revisions take the same step for the same reply and differ
      only in how long they sleep: the older one sleeps `margin` seconds
      less, provided the service's `X-Ttl` is not negative. */
  lemma {:induction false} StepWithoutMargin(protocol: string, ips: map<string, string>, margin: int, chunk: seq<string>, reply: Reply)
    requires margin >= 0
    requires reply.Response? && reply.ttl.Some? && PyInt(reply.ttl.value).Some? ==> PyInt(reply.ttl.value).value >= 0
    ensures var older := VerifyStep(protocol, ips, 0, chunk, reply);
      var current := VerifyStep(protocol, ips, margin, chunk, reply);
      && older.end == current.end
      && |older.events| == |current.events|
      && older.events[0] == current.events[0]
      && (|older.events| == 2 ==> current.events[1].seconds == older.events[1].seconds + margin)
  {
  }

  // ---------------------------------------------------------------------
  // The older class
  // ---------------------------------------------------------------------

  class ProxyMiner {
    const protocol: string
    const timeout: int
    var sources: map<string, seq<Source>>
    var proxies: set<string>
    /** The posts and sleeps of every `verify` so far, in order. */
    ghost var log: seq<Event>

    /** The registry's "https" list gains the two built-in scrapers. */
    constructor (protocol: string, timeout: int, sources: map<string, seq<Source>>)
      requires "https" in sources
      ensures this.protocol == protocol && this.timeout == timeout
      ensures this.sources == sources["https" := sources["https"] + [Sslproxies, Clarketm]]
      ensures proxies == {} && log == []
    {
      this.protocol := protocol;
      this.timeout := timeout;
      this.sources := sources["https" := sources["https"] + [Sslproxies, Clarketm]];
      proxies := {};
      log := [];
    }

    /** `_get_proxies` with no exception handler: a failed request raises. */
    method GetProxies(web: Web, url: string) returns (error: Option<Error>)
      modifies this`proxies
      ensures var g := GetStep(web, protocol, Older, Url(url));
        proxies == old(proxies) + g.added && error == g.error
      ensures web.fetch(url).Failed? ==> proxies == old(proxies) && error == Some(web.fetch(url).error)
    {
      match web.fetch(url) {
        case Body(text) =>
          proxies := proxies + Harvest(protocol, text);
          error := None;
        case Failed(e) =>
          error := Some(e);
      }
    }

    /** One entry of `get`'s loop: a string through `_get_proxies`, anything
        else called. */
    method Fetch(web: Web, src: Source) returns (error: Option<Error>)
      modifies this`proxies
      ensures var g := GetStep(web, protocol, Older, src);
        proxies == old(proxies) + g.added && error == g.error
    {
      match src {
        case Url(u) =>
          error := GetProxies(web, u);
        case Getter(name) =>
          error := if web.call(name).Raised? then Some(web.call(name).error) else None;
        case _ =>
          var step := GetStep(web, protocol, Older, src);
          proxies := proxies + step.added;
          error := step.error;
      }
    }

    /** `get`: a string entry through `_get_proxies`, anything else by
        calling it and dropping what it returns; the first exception ends
        the loop and leaves what was added so far. The two scrapers are the
        code of `Miner.ProxyMiner.GetSslproxies` and `GetClarketm`; here they
        are taken as the step they specify. Returns the set as a list. */
    method Get(web: Web) returns (r: Outcome<seq<string>>)
      modifies this`proxies
      ensures protocol !in sources ==> r == Raised(KeyError) && proxies == old(proxies)
      ensures protocol in sources ==>
        var g := Gather(web, protocol, Older, sources[protocol]);
        && proxies == old(proxies) + g.added
        && (g.error.Some? ==> r == Raised(g.error.value))
        && (g.error.None? ==> r.Returned? && Listing(r.value, proxies))
    {
      if protocol !in sources {
        return Raised(KeyError);
      }
      var srcs := sources[protocol];
      var i := 0;
      while i < |srcs|
        invariant 0 <= i <= |srcs|
        invariant proxies + Gather(web, protocol, Older, srcs[i..]).added
                  == old(proxies) + Gather(web, protocol, Older, srcs).added
        invariant Gather(web, protocol, Older, srcs[i..]).error == Gather(web, protocol, Older, srcs).error
      {
        assert srcs[i..][1..] == srcs[i + 1..];
        var error := Fetch(web, srcs[i]);
        if error.Some? {
          return Raised(error.value);
        }
        i := i + 1;
      }
      assert srcs[i..] == [];
      var listing := ListOf(proxies);
      return Returned(listing);
    }

    /** `clean`: a pool with `max_workers <= 0` raises ValueError; otherwise
        the proxies whose HTTP check passed, as `_clean_proxy` returns the
        proxy string itself and an empty one is falsy. */
    method Clean(web: Web, maxWorkers: int) returns (r: Outcome<()>)
      modifies this`proxies
      ensures var res := CleanResult(web, protocol, Older, maxWorkers, old(proxies));
        && (res.Returned? ==> r.Returned? && proxies == res.value)
        && (res.Raised? ==> r == Raised(res.error) && proxies == old(proxies))
    {
      if maxWorkers <= 0 {
        return Raised(ValueError);
      }
      var clean: set<string> := {};
      var rest := proxies;
      ghost var done: set<string> := {};
      while rest != {}
        invariant done + rest == proxies && done !! rest
        invariant clean == set p | p in done && KeptOlder(web, p)
        decreases rest
      {
        var p :| p in rest;
        if web.http(p) && p != "" {
          clean := clean + {p};
        }
        rest := rest - {p};
        done := done + {p};
      }
      proxies := clean;
      return Returned(());
    }

    /** `verify`: as the current one, with `sleep(int(X-Ttl))` and `None`
        returned where the current one returns False. `order` is the set's
        iteration order. */
    method Verify(web: Web, url: string, batch: int) returns (r: Outcome<Option<bool>>, ghost order: seq<string>)
      modifies this`proxies, this`log
      ensures Listing(order, old(proxies))
      ensures var run := VerifyPlan(web, protocol, 0, url, batch, order);
        && proxies == old(proxies) + run.added
        && log == old(log) + run.events
        && r == VerdictOlder(run.end)
    {
      var listing := ListOf(proxies);
      order := listing;
      var pairs: seq<(string, string)>;
      match Pairs(protocol, listing) {
        case Raised(e) =>
          return Raised(e), order;
        case Returned(ps) =>
          pairs := ps;
      }
      var ips := Dict(pairs);
      var chunks: seq<seq<string>>;
      match Chunks(Keys(pairs), batch) {
        case Raised(e) =>
          return Raised(e), order;
        case Returned(cs) =>
          chunks := cs;
      }
      var end := VerifyChunks(web, url, ips, chunks);
      return VerdictOlder(end), order;
    }

    /** `verify`'s loop over the chunks, up to the first early return or
        exception. */
    method VerifyChunks(web: Web, url: string, ips: map<string, string>, chunks: seq<seq<string>>) returns (end: RunEnd)
      modifies this`proxies, this`log
      ensures var run := RunChunks(web, protocol, ips, 0, url, chunks);
        && proxies == old(proxies) + run.added
        && log == old(log) + run.events
        && end == run.end
    {
      ghost var steps := Steps(web, protocol, ips, 0, url, chunks);
      RunChunksSteps(web, protocol, ips, 0, url, chunks, 0);
      assert chunks[0..] == chunks;
      ghost var whole := RunAt(steps, 0);
      var k := 0;
      while k < |chunks|
        invariant 0 <= k <= |chunks|
        invariant proxies + RunAt(steps, k).added == old(proxies) + whole.added
        invariant log + RunAt(steps, k).events == old(log) + whole.events
        invariant RunAt(steps, k).end == whole.end
      {
        ghost var logBefore, proxiesBefore := log, proxies;
        ghost var st := steps[k];
        ghost var rest := RunAt(steps, k + 1);
        var step := VerifyChunk(web, url, ips, chunks[k]);
        assert step == st.end && log == logBefore + st.events;
        match step {
          case Abort =>
            return Aborted;
          case Crash(e) =>
            return Crashed(e);
          case Next(found) =>
            assert proxies == proxiesBefore + found;
            assert RunAt(steps, k).events == st.events + rest.events;
            AppendAssoc(logBefore, st.events, rest.events);
        }
        k := k + 1;
      }
      return Completed;
    }

    /** One pass of the older `verify`'s loop: post the chunk, stop on a
        failed request or a refused response, read the rate-limit headers,
        sleep `int(X-Ttl)` seconds when the window is used up, and add the
        undetected hosts. */
    method VerifyChunk(web: Web, url: string, ips: map<string, string>, chunk: seq<string>) returns (end: StepEnd)
      modifies this`proxies, this`log
      ensures var st := StepOf(web, protocol, ips, 0, url, chunk);
        && end == st.end
        && log == old(log) + st.events
        && proxies == old(proxies) + (if end.Next? then end.added else {})
    {
      log := log + [Post(chunk)];
      var reply := web.post(url, chunk);
      ghost var st := VerifyStep(protocol, ips, 0, chunk, reply);
      if reply.PostFailed? || !reply.ok {
        assert st == Step(Abort, [Post(chunk)]);
        return Abort;
      }
      if reply.rl.None? || reply.ttl.None? {
        assert st == Step(Crash(KeyError), [Post(chunk)]);
        return Crash(KeyError);
      }
      var remaining := PyInt(reply.rl.value);
      if remaining.None? {
        assert st == Step(Crash(ValueError), [Post(chunk)]);
        return Crash(ValueError);
      }
      ghost var pause := Pause(remaining.value, reply.ttl.value, 0);
      if remaining.value == 0 {
        var ttl := PyInt(reply.ttl.value);
        if ttl.None? || ttl.value < 0 {
          assert pause == Raised(ValueError);
          assert st == Step(Crash(ValueError), [Post(chunk)]);
          return Crash(ValueError);
        }
        log := log + [Sleep(ttl.value)];
      }
      assert pause.Returned? && log == old(log) + [Post(chunk)] + pause.value;
      StepReads(protocol, ips, 0, chunk, reply);
      if reply.body.None? {
        return Crash(ValueError);
      }
      match Accepted(protocol, ips, reply.body.value) {
        case Raised(e) =>
          return Crash(e);
        case Returned(found) =>
          proxies := proxies + found;
          return Next(found);
      }
    }

    /** `load`: a missing file, or one with no lines, falls back on `get`
        when `web` is set and otherwise changes nothing; the lines of a file
        that has some join the set. `file` is the file's text, `None` when
        there is no such file. The method itself returns nothing; the
        exception `get` raised, if any, is `r`. */
    method Load(web: Web, file: Option<string>, fromWeb: bool) returns (r: Outcome<()>)
      modifies this`proxies
      ensures file.Some? && SplitLines(file.value) != [] ==>
        r == Returned(()) && proxies == old(proxies) + (set i | 0 <= i < |SplitLines(file.value)| :: SplitLines(file.value)[i])
      ensures (file.None? || SplitLines(file.value) == []) && !fromWeb ==>
        r == Returned(()) && proxies == old(proxies)
      ensures (file.None? || SplitLines(file.value) == []) && fromWeb && protocol !in sources ==>
        r == Raised(KeyError) && proxies == old(proxies)
      ensures (file.None? || SplitLines(file.value) == []) && fromWeb && protocol in sources ==>
        var g := Gather(web, protocol, Older, sources[protocol]);
        && proxies == old(proxies) + g.added
        && r == (if g.error.Some? then Raised(g.error.value) else Returned(()))
    {
      if file.Some? {
        var lines := SplitLines(file.value);
        if lines != [] {
          proxies := proxies + (set i | 0 <= i < |lines| :: lines[i]);
          return Returned(());
        }
      }
      if !fromWeb {
        return Returned(());
      }
      var got := Get(web);
      if got.Raised? {
        return Raised(got.error);
      }
      return Returned(());
    }

    /** `save`: the text written to the file and what `write` returns, its
        length; `None` for both when the set is empty. */
    method Save() returns (written: Option<int>, text: Option<string>)
      ensures proxies == {} ==> written == None && text == None
      ensures proxies != {} ==> && text.Some? && written == Some(|text.value|)
                                && (exists listing :: Listing(listing, proxies) && text.value == SaveTextOlder(listing))
      ensures proxies != {} && "" !in proxies && (forall p :: p in proxies ==> NoLineBreak(p)) ==>
                Listing(SplitLines(text.value), proxies)
    {
      if proxies == {} {
        return None, None;
      }
      var listing := ListOf(proxies);
      assert listing != [] by {
        var p :| p in proxies;
        assert p in listing;
      }
      if "" !in proxies && forall p :: p in proxies ==> NoLineBreak(p) {
        forall i | 0 <= i < |listing| ensures NoLineBreak(listing[i]) {
          assert listing[i] in proxies;
        }
        assert listing[|listing| - 1] in proxies;
        LoadSavedOlder(listing);
      }
      var contents := SaveTextOlder(listing);
      return Some(|contents|), Some(contents);
    }
  }
}
