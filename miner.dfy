/** `ProxyMiner` of openweb_proxy/proxy_miner.py: a proxy set updated in place
    by the getters and `verify`, replaced by `clean`, and a source registry
    that `benchmark_sources` overwrites. Every network answer comes from a
    `Web` oracle, every sleep is recorded in the ghost `log`. */
module Miner {
  import opened PyText
  import opened Proxies

  class ProxyMiner {
    const protocol: string
    const timeout: int
    var sources: map<string, seq<Source>>
    var proxies: set<string>
    /** The posts and sleeps of every `verify` so far, in order. */
    ghost var log: seq<Event>

    /** The registry's "https" list gains the two built-in scrapers. */
    constructor (protocol: string, timeout: int, sources: map<string, seq<Source>>)
      requires "https" in sources
      ensures this.protocol == protocol && this.timeout == timeout
      ensures this.sources == sources["https" := sources["https"] + [Sslproxies, Clarketm]]
      ensures proxies == {} && log == []
    {
      this.protocol := protocol;
      this.timeout := timeout;
      this.sources := sources["https" := sources["https"] + [Sslproxies, Clarketm]];
      proxies := {};
      log := [];
    }

    /** `_get_proxies`: every endpoint found in the page, prefixed with the
        protocol; a timeout or a refused connection is logged and changes
        nothing. */
    method GetProxies(web: Web, url: string) returns (error: Option<Error>)
      modifies this`proxies
      ensures var g := GetStep(web, protocol, Current, Url(url));
        proxies == old(proxies) + g.added && error == g.error
      ensures web.fetch(url).Failed? ==> proxies == old(proxies)
    {
      match web.fetch(url) {
        case Body(text) =>
          proxies := proxies + Harvest(protocol, text);
          error := None;
        case Failed(e) =>
          error := if e == ReadTimeout || e == ConnectionError then None else Some(e);
      }
    }

    /** `_get_sslproxies`: one `https://ip:port` per table row. */
    method GetSslproxies(web: Web) returns (error: Option<Error>)
      modifies this`proxies
      ensures var g := GetStep(web, protocol, Current, Sslproxies);
        proxies == old(proxies) + g.added && error == g.error
    {
      match web.fetch(SSLPROXIES_URL) {
        case Failed(e) =>
          return Some(e);
        case Body(text) =>
          match web.table(text) {
            case None =>
              return Some(AttributeError);
            case Some(rows) =>
              var i := 0;
              while i < |rows|
                invariant 0 <= i <= |rows|
                invariant proxies + SslRows(rows[i..]).added == old(proxies) + SslRows(rows).added
                invariant SslRows(rows[i..]).error == SslRows(rows).error
              {
                assert rows[i..][1..] == rows[i + 1..];
                var cells := rows[i];
                if |cells| < 2 {
                  return Some(IndexError);
                }
                proxies := proxies + {"https://" + cells[0] + ":" + cells[1]};
                i := i + 1;
              }
              assert rows[i..] == [];
              return None;
          }
      }
    }

    /** `_get_clarketm`: the lines between the header and the footer that
        contain an `S`, up to their first space. */
    method GetClarketm(web: Web) returns (error: Option<Error>)
      modifies this`proxies
      ensures var g := GetStep(web, protocol, Current, Clarketm);
        proxies == old(proxies) + g.added && error == g.error
    {
      ClarketmStep(web, protocol, Current);
      match web.fetch(CLARKETM_URL) {
        case Failed(e) =>
          return Some(e);
        case Body(text) =>
          var lines := Slice(SplitLines(text), 6, -2);
          for i := 0 to |lines|
            invariant proxies == old(proxies) + ClarketmLines(lines[..i])
          {
            ClarketmLinesStep(lines, i);
            if 'S' in lines[i] {
              proxies := proxies + {"https://" + FirstToken(lines[i])};
            }
          }
          assert lines[..|lines|] == lines;
          return None;
      }
    }

    /** `get`: every registry entry for the protocol in turn, a URL through
        `_get_proxies`, a callable by calling it; an exception ends the loop
        and leaves what was added so far. Returns the set as a list. */
    method Get(web: Web) returns (r: Outcome<seq<string>>)
      modifies this`proxies
      ensures protocol !in sources ==> r == Raised(KeyError) && proxies == old(proxies)
      ensures protocol in sources ==>
        var g := Gather(web, protocol, Current, sources[protocol]);
        && proxies == old(proxies) + g.added
        && (g.error.Some? ==> r == Raised(g.error.value))
        && (g.error.None? ==> r.Returned? && Listing(r.value, proxies))
    {
      if protocol !in sources {
        return Raised(KeyError);
      }
      var srcs := sources[protocol];
      var i := 0;
      while i < |srcs|
        invariant 0 <= i <= |srcs|
        invariant proxies + Gather(web, protocol, Current, srcs[i..]).added
                  == old(proxies) + Gather(web, protocol, Current, srcs).added
        invariant Gather(web, protocol, Current, srcs[i..]).error == Gather(web, protocol, Current, srcs).error
      {
        assert srcs[i..][1..] == srcs[i + 1..];
        var error: Option<Error>;
        match srcs[i] {
          case Url(u) =>
            error := GetProxies(web, u);
          case Sslproxies =>
            error := GetSslproxies(web);
          case Clarketm =>
            error := GetClarketm(web);
          case Getter(name) =>
            match web.call(name) {
              case Raised(e) =>
                error := Some(e);
              case Returned(found) =>
                if found != {} {
                  proxies := proxies + found;
                }
                error := None;
            }
        }
        if error.Some? {
          return Raised(error.value);
        }
        i := i + 1;
      }
      assert srcs[i..] == [];
      var listing := ListOf(proxies);
      return Returned(listing);
    }

    /** `clean`: fetch the banned list, check every proxy, keep those that
        pass both checks and do not occur in the banned text. The checks'
        completion order cannot matter: the result is a set. On an
        exception the set is left as it was. */
    method Clean(web: Web, maxWorkers: int) returns (r: Outcome<()>)
      modifies this`proxies
      ensures var res := CleanResult(web, protocol, Current, maxWorkers, old(proxies));
        && (res.Returned? ==> r.Returned? && proxies == res.value)
        && (res.Raised? ==> r == Raised(res.error) && proxies == old(proxies))
    {
      var banned: string;
      match web.fetch(BANNED_URL) {
        case Failed(e) =>
          return Raised(e);
        case Body(text) =>
          banned := text;
      }
      if maxWorkers <= 0 {
        return Raised(ValueError);
      }
      var checked := CheckAll(web, banned);
      match checked {
        case Raised(e) =>
          return Raised(e);
        case Returned(kept) =>
          proxies := kept;
          return Returned(());
      }
    }

    /** The loop over `as_completed` in `clean`: every proxy of the set is
        checked; the first exception propagates, otherwise the set of those
        kept is returned. */
    method CheckAll(web: Web, banned: string) returns (r: Outcome<set<string>>)
      ensures Unparsable(web, protocol, proxies) ==> r == Raised(ValueError)
      ensures !Unparsable(web, protocol, proxies) ==> r == Returned(KeptIn(web, protocol, banned, proxies))
    {
      var kept: set<string> := {};
      var rest := proxies;
      ghost var done: set<string> := {};
      while rest != {}
        invariant done + rest == proxies && done !! rest
        invariant kept == KeptIn(web, protocol, banned, done)
        invariant forall p :: p in done ==> CleanProxy(web, protocol, p).Returned?
        decreases rest
      {
        var p :| p in rest;
        match CleanProxy(web, protocol, p) {
          case Raised(e) =>
            assert p in proxies;
            return Raised(e);
          case Returned(ok) =>
            KeptInAdd(web, protocol, banned, done, p);
            if ok && !Contains(banned, p) {
              kept := kept + {p};
            }
        }
        rest := rest - {p};
        done := done + {p};
      }
      return Returned(kept);
    }

    /** `verify`: split every proxy into host and port, post the hosts in
        chunks of `batch`, sleep `X-Ttl` plus the timeout when no request is
        left in the window, and add every undetected host back with its
        port. Nothing is ever removed. `order` is the set's iteration order. */
    method Verify(web: Web, url: string, batch: int) returns (r: Outcome<bool>, ghost order: seq<string>)
      modifies this`proxies, this`log
      ensures Listing(order, old(proxies))
      ensures var run := VerifyPlan(web, protocol, timeout, url, batch, order);
        && proxies == old(proxies) + run.added
        && log == old(log) + run.events
        && r == Verdict(run.end)
    {
      var listing := ListOf(proxies);
      order := listing;
      var pairs: seq<(string, string)>;
      match Pairs(protocol, listing) {
        case Raised(e) =>
          return Raised(e), order;
        case Returned(ps) =>
          pairs := ps;
      }
      var ips := Dict(pairs);
      var chunks: seq<seq<string>>;
      match Chunks(Keys(pairs), batch) {
        case Raised(e) =>
          return Raised(e), order;
        case Returned(cs) =>
          chunks := cs;
      }
      var end := VerifyChunks(web, url, ips, chunks);
      return Verdict(end), order;
    }

    /** `verify`'s loop over the chunks, up to the first early return or
        exception. */
    method VerifyChunks(web: Web, url: string, ips: map<string, string>, chunks: seq<seq<string>>) returns (end: RunEnd)
      modifies this`proxies, this`log
      ensures var run := RunChunks(web, protocol, ips, timeout, url, chunks);
        && proxies == old(proxies) + run.added
        && log == old(log) + run.events
        && end == run.end
    {
      ghost var steps := Steps(web, protocol, ips, timeout, url, chunks);
      RunChunksSteps(web, protocol, ips, timeout, url, chunks, 0);
      assert chunks[0..] == chunks;
      ghost var whole := RunAt(steps, 0);
      var k := 0;
      while k < |chunks|
        invariant 0 <= k <= |chunks|
        invariant proxies + RunAt(steps, k).added == old(proxies) + whole.added
        invariant log + RunAt(steps, k).events == old(log) + whole.events
        invariant RunAt(steps, k).end == whole.end
      {
        ghost var logBefore, proxiesBefore := log, proxies;
        ghost var st := steps[k];
        ghost var rest := RunAt(steps, k + 1);
        var step := VerifyChunk(web, url, ips, chunks[k]);
        assert step == st.end && log == logBefore + st.events;
        match step {
          case Abort =>
            return Aborted;
          case Crash(e) =>
            return Crashed(e);
          case Next(found) =>
            assert proxies == proxiesBefore + found;
            assert RunAt(steps, k).events == st.events + rest.events;
            AppendAssoc(logBefore, st.events, rest.events);
        }
        k := k + 1;
      }
      return Completed;
    }

    /** One pass of `verify`'s loop: post the chunk, stop on a failed
        request or a refused response, read the rate-limit headers, sleep
        when the window is used up, and add the undetected hosts. */
    method VerifyChunk(web: Web, url: string, ips: map<string, string>, chunk: seq<string>) returns (end: StepEnd)
      modifies this`proxies, this`log
      ensures var st := StepOf(web, protocol, ips, timeout, url, chunk);
        && end == st.end
        && log == old(log) + st.events
        && proxies == old(proxies) + (if end.Next? then end.added else {})
    {
      log := log + [Post(chunk)];
      var reply := web.post(url, chunk);
      ghost var st := VerifyStep(protocol, ips, timeout, chunk, reply);
      if reply.PostFailed? || !reply.ok {
        assert st == Step(Abort, [Post(chunk)]);
        return Abort;
      }
      if reply.rl.None? || reply.ttl.None? {
        assert st == Step(Crash(KeyError), [Post(chunk)]);
        return Crash(KeyError);
      }
      var remaining := PyInt(reply.rl.value);
      if remaining.None? {
        assert st == Step(Crash(ValueError), [Post(chunk)]);
        return Crash(ValueError);
      }
      ghost var pause := Pause(remaining.value, reply.ttl.value, timeout);
      if remaining.value == 0 {
        var ttl := PyInt(reply.ttl.value);
        if ttl.None? || ttl.value + timeout < 0 {
          assert pause == Raised(ValueError);
          assert st == Step(Crash(ValueError), [Post(chunk)]);
          return Crash(ValueError);
        }
        log := log + [Sleep(ttl.value + timeout)];
      }
      assert pause.Returned? && log == old(log) + [Post(chunk)] + pause.value;
      StepReads(protocol, ips, timeout, chunk, reply);
      if reply.body.None? {
        return Crash(ValueError);
      }
      match Accepted(protocol, ips, reply.body.value) {
        case Raised(e) =>
          return Crash(e);
        case Returned(found) =>
          proxies := proxies + found;
          return Next(found);
      }
    }

    /** `load`: with `web`, whatever `get` does; otherwise the lines of the
        file, when it exists and has any, join the set. `file` is the file's
        text, `None` when there is no such file. */
    method Load(web: Web, file: Option<string>, fromWeb: bool) returns (r: Outcome<seq<string>>)
      modifies this`proxies
      ensures fromWeb && protocol !in sources ==> r == Raised(KeyError) && proxies == old(proxies)
      ensures fromWeb && protocol in sources ==>
        var g := Gather(web, protocol, Current, sources[protocol]);
        && proxies == old(proxies) + g.added
        && (g.error.Some? ==> r == Raised(g.error.value))
        && (g.error.None? ==> r.Returned? && Listing(r.value, proxies))
      ensures !fromWeb && (file.None? || SplitLines(file.value) == []) ==>
        r == Returned([]) && proxies == old(proxies)
      ensures !fromWeb && file.Some? && SplitLines(file.value) != [] ==>
        && proxies == old(proxies) + (set i | 0 <= i < |SplitLines(file.value)| :: SplitLines(file.value)[i])
        && r.Returned? && Listing(r.value, proxies)
    {
      if fromWeb {
        r := Get(web);
        return;
      }
      if file.None? {
        return Returned([]);
      }
      var lines := SplitLines(file.value);
      if lines != [] {
        proxies := proxies + (set i | 0 <= i < |lines| :: lines[i]);
        var listing := ListOf(proxies);
        return Returned(listing);
      }
      return Returned([]);
    }

    /** `save`: the text written to the file, and what `write` returns, its
        length; -1 and nothing written when the set is empty. */
    method Save() returns (written: int, text: Option<string>)
      ensures proxies == {} ==> written == -1 && text == None
      ensures proxies != {} ==> && text.Some? && written == |text.value|
                                && (exists listing :: Listing(listing, proxies) && text.value == SaveText(listing))
      ensures proxies != {} && (forall p :: p in proxies ==> NoLineBreak(p)) ==>
                Listing(SplitLines(text.value), proxies)
    {
      if proxies == {} {
        return -1, None;
      }
      var listing := ListOf(proxies);
      assert listing != [] by {
        var p :| p in proxies;
        assert p in listing;
      }
      if forall p :: p in proxies ==> NoLineBreak(p) {
        forall i | 0 <= i < |listing| ensures NoLineBreak(listing[i]) {
          assert listing[i] in proxies;
        }
        LoadSaved(listing);
      }
      var contents := SaveText(listing);
      return |contents|, Some(contents);
    }

    /** `refresh`: `load` from the Web, which is `get`, then `verify` and
        `clean`, their results dropped; the first exception propagates. */
    method Refresh(web: Web) returns (r: Outcome<()>, ghost order: seq<string>, ghost out: RoundOut)
      modifies this`proxies, this`log
      ensures protocol !in sources ==> r == Raised(KeyError) && proxies == old(proxies) && log == old(log)
      ensures protocol in sources ==>
        && out == Round(web, protocol, timeout, sources[protocol], old(proxies), order)
        && (out.gathered.Some? ==> Listing(order, out.gathered.value))
        && proxies == out.proxies && log == old(log) + out.events
        && (out.error.Some? ==> r == Raised(out.error.value))
        && (out.error.None? ==> r == Returned(()))
    {
      ghost var start := proxies;
      order := [];
      out := RoundOut(None, None, proxies, []);
      var loaded := Load(web, None, true);
      if loaded.Raised? {
        if protocol in sources {
          RoundStages(web, protocol, timeout, sources[protocol], start, order);
          out := RoundOut(Some(loaded.error), None, proxies, []);
        }
        return Raised(loaded.error), order, out;
      }
      ghost var gathered := proxies;
      var verified;
      verified, order := Verify(web, ISPROXY_URL_BATCH, MAX_ISPROXY_BATCH);
      ghost var run := VerifyPlan(web, protocol, timeout, ISPROXY_URL_BATCH, MAX_ISPROXY_BATCH, order);
      RoundStages(web, protocol, timeout, sources[protocol], start, order);
      ghost var events := run.events;
      if verified.Raised? {
        out := RoundOut(Some(verified.error), Some(gathered), proxies, events);
        return Raised(verified.error), order, out;
      }
      var cleaned := Clean(web, MAX_CHECK_WORKERS);
      if cleaned.Raised? {
        out := RoundOut(Some(cleaned.error), Some(gathered), proxies, events);
        return Raised(cleaned.error), order, out;
      }
      out := RoundOut(None, Some(gathered), proxies, events);
      return Returned(()), order, out;
    }

    /** `benchmark_sources`: for each distinct registry entry, make it the
        only source, run `get`, `verify` and `clean` on the set as it stands,
        and record the set's size. The registry is not restored and the set
        is not emptied between sources. Returns the recorded sizes, which
        the source only logs. Round `i` starts from `states[i]`, logs after
        `logs[i]`, and its `verify` lists the set in `orders[i]`. */
    method BenchmarkSources(web: Web) returns (r: Outcome<map<Source, nat>>, ghost outs: seq<RoundOut>, ghost orders: seq<seq<string>>)
      modifies this`proxies, this`sources, this`log
      ensures protocol !in old(sources) ==>
        r == Raised(KeyError) && sources == old(sources) && proxies == old(proxies) && log == old(log)
      ensures protocol in old(sources) ==>
        var order := Distinct(old(sources)[protocol]);
        var n := |outs|;
        && Progress(web, protocol, timeout, order, old(sources), old(proxies), old(log), outs, orders, proxies, log, sources)
        && (r.Raised? ==> n > 0 && AllReturned(outs[..n - 1]) && outs[n - 1].error == Some(r.error))
        && (r.Returned? ==>
              && n == |order| && AllReturned(outs)
              && (forall s :: s in r.value <==> s in order)
              && (forall i :: 0 <= i < n ==> r.value[order[i]] == |outs[i].proxies|))
    {
      outs, orders := [], [];
      if protocol !in sources {
        return Raised(KeyError), outs, orders;
      }
      var order := Distinct(sources[protocol]);
      var report: map<Source, nat> := map s | s in order :: 0;
      ghost var before := sources;
      var i := 0;
      while i < |order|
        invariant i == |outs|
        invariant Progress(web, protocol, timeout, order, before, old(proxies), old(log), outs, orders, proxies, log, sources)
        invariant AllReturned(outs)
        invariant Sized(report, order, outs)
      {
        var size;
        ghost var listed, out;
        ghost var start, logged, registry := proxies, log, sources;
        size, listed, out := BenchmarkRound(web, order[i]);
        ProgressStep(web, protocol, timeout, order, before, old(proxies), old(log), outs, orders, start, logged, registry, listed, out);
        SizedStep(before[protocol], report, outs, out);
        ghost var prev := outs;
        outs, orders := outs + [out], orders + [listed];
        if size.Raised? {
          assert outs[..i] == prev;
          return Raised(size.error), outs, orders;
        }
        AllReturnedStep(prev, out);
        report := report[order[i] := size.value];
        i := i + 1;
      }
      return Returned(report), outs, orders;
    }

    /** One round of `benchmark_sources`: `source` becomes the protocol's
        only source, then `get`, `verify` and `clean` run in turn; the round
        yields the set's size, or the first exception. `order` is the
        iteration order `verify` lists the set in. */
    method BenchmarkRound(web: Web, source: Source) returns (r: Outcome<nat>, ghost order: seq<string>, ghost out: RoundOut)
      modifies this`proxies, this`sources, this`log
      ensures sources == old(sources)[protocol := [source]]
      ensures out == Round(web, protocol, timeout, [source], old(proxies), order)
      ensures out.gathered.Some? ==> Listing(order, out.gathered.value)
      ensures proxies == out.proxies && log == old(log) + out.events
      ensures out.error.Some? ==> r == Raised(out.error.value)
      ensures out.error.None? ==> r == Returned(|proxies|)
    {
      ghost var start := proxies;
      order := [];
      sources := sources[protocol := [source]];
      var got := Get(web);
      if got.Raised? {
        RoundStages(web, protocol, timeout, [source], start, order);
        out := RoundOut(Some(got.error), None, proxies, []);
        return Raised(got.error), order, out;
      }
      ghost var gathered := proxies;
      var verified;
      verified, order := Verify(web, ISPROXY_URL_BATCH, MAX_ISPROXY_BATCH);
      ghost var run := VerifyPlan(web, protocol, timeout, ISPROXY_URL_BATCH, MAX_ISPROXY_BATCH, order);
      RoundStages(web, protocol, timeout, [source], start, order);
      ghost var events := run.events;
      if verified.Raised? {
        out := RoundOut(Some(verified.error), Some(gathered), proxies, events);
        return Raised(verified.error), order, out;
      }
      var cleaned := Clean(web, MAX_CHECK_WORKERS);
      if cleaned.Raised? {
        out := RoundOut(Some(cleaned.error), Some(gathered), proxies, events);
        return Raised(cleaned.error), order, out;
      }
      out := RoundOut(None, Some(gathered), proxies, events);
      return Returned(|proxies|), order, out;
    }
  }
}
