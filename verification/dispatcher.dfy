/** The two worker pools of `main` and the WaitGroup that counts their
    tasks (main.go:123-169, main.go:275), as a sequential state machine.
    Each `wg.Add(1); pool.Invoke(host)` appends a dispatch to the pending
    tasks; a worker takes any pending task, probes it, prints on success,
    may hand the host on to the HTTP pool, and finally calls `wg.Done()`.
    Pool sizes and real parallelism are not modelled: a task may be taken
    in any order, which covers every completion order. */
module Dispatcher {
  import opened Wrappers
  import Strings
  import opened Similarity
  import opened Fingerprint
  import opened Generator
  import opened Prober

  /** A printed line: the bare URL, or the JSON record under `-v`. */
  datatype Report = Plain(url: string) | Json(meta: Verbose)

  /** Tasks dispatched and not yet done, the WaitGroup counter, the
      fingerprint registry, and the lines printed so far. */
  datatype Run = Run(pending: seq<Dispatch>, counter: int, detector: Option<Similar>, output: seq<Report>)

  /** The WaitGroup counts exactly the outstanding tasks. */
  predicate Valid(r: Run) {
    r.counter == |r.pending|
  }

  /** Before the first line: nothing pending, and a registry exactly when
      `-detect-similar` is set (main.go:119-121). */
  function Start(cfg: Config): (r: Run)
    ensures Valid(r) && r.pending == [] && r.output == []
    ensures r.detector.Some? <==> cfg.detectSimilar
    ensures r.detector.Some? ==> r.detector.value.hashes == {}
  {
    Run([], 0, if cfg.detectSimilar then Some(NewSimilar()) else None, [])
  }

  /** `wg.Add(1)` followed by `Invoke`, for each dispatch in order. */
  function Submit(r: Run, ds: seq<Dispatch>): (r': Run)
    ensures Valid(r) ==> Valid(r')
    ensures multiset(r'.pending) == multiset(r.pending) + multiset(ds)
    ensures r'.detector == r.detector && r'.output == r.output
  {
    Run(r.pending + ds, r.counter + |ds|, r.detector, r.output)
  }

  /** A blank line dispatches nothing and leaves the counter alone. */
  lemma BlankLineChangesNothing(r: Run, raw: string, cfg: Config, expand: string -> Option<seq<string>>)
    requires Strings.TrimSpace(raw) == []
    ensures Submit(r, Generate(raw, cfg, expand)) == r
  {
  }

  /** The deferred `wg.Done()` of task `i`. */
  function Finish(r: Run, i: nat): (r': Run)
    requires i < |r.pending|
    ensures Valid(r) ==> Valid(r')
    ensures multiset(r'.pending) == multiset(r.pending) - multiset{r.pending[i]}
  {
    var s := r.pending;
    assert s == s[..i] + [s[i]] + s[i + 1..];
    Run(s[..i] + s[i + 1..], r.counter - 1, r.detector, r.output)
  }

  /** The follow-up rule: an HTTPS task hands its host to the HTTP pool
      unless it succeeded under `-prefer-https`; an HTTP task never hands
      anything on. */
  function FollowUp(d: Dispatch, success: bool, preferHttps: bool): (r: seq<Dispatch>)
    ensures |r| <= 1
    ensures r != [] <==> d.pool == Https && !(success && preferHttps)
    ensures forall f :: f in r ==> f == Dispatch(Http, d.host)
  {
    if d.pool == Https && !(success && preferHttps) then [Dispatch(Http, d.host)] else []
  }

  /** The line a successful probe prints. */
  function Emit(url: string, p: Probed): Report {
    match p.meta
    case Some(v) => Json(v)
    case None => Plain(url)
  }

  /** The probe a worker makes for task `i`, with the run's registry. */
  function ProbeOf(r: Run, i: nat, cfg: Config, t: Transport, sha1: string -> Digest): Probed
    requires i < |r.pending|
  {
    IsWorking(ProbeUrl(r.pending[i]), cfg.verbose, r.detector, t, sha1)
  }

  /** A worker runs task `i` to its end: probe, print on success, then the
      follow-up `wg.Add(1); httpPool.Invoke(u)`, and last the deferred
      `wg.Done()`, so the counter cannot reach zero between the two. The
      task leaves the pending tasks; an HTTPS task for host `u` adds exactly
      one HTTP task for the same `u` unless it succeeded under
      `-prefer-https`, and an HTTP task adds nothing. A success prints one
      line (the URL, or the JSON record under `-v`), a failure none. */
  function Complete(r: Run, i: nat, cfg: Config, t: Transport, sha1: string -> Digest): (r': Run)
    requires i < |r.pending|
    ensures Valid(r) ==> Valid(r')
    ensures var d := r.pending[i];
            var p := ProbeOf(r, i, cfg, t, sha1);
            && multiset(r'.pending) == multiset(r.pending) - multiset{d}
                 + (if d.pool == Https && !(p.success && cfg.preferHttps)
                    then multiset{Dispatch(Http, d.host)} else multiset{})
            && r'.detector == p.detector
            && r'.output == r.output + (if p.success then [Emit(ProbeUrl(d), p)] else [])
  {
    var d := r.pending[i];
    var p := ProbeOf(r, i, cfg, t, sha1);
    var probed := Run(r.pending, r.counter, p.detector, r.output + (if p.success then [Emit(ProbeUrl(d), p)] else []));
    var handed := Submit(probed, FollowUp(d, p.success, cfg.preferHttps));
    assert handed.pending[i] == d;
    Finish(handed, i)
  }

  /** What a task prints: one line on success and none on failure; the
      bare URL probed, or under `-v` the JSON record for that URL. */
  lemma CompletePrints(r: Run, i: nat, cfg: Config, t: Transport, sha1: string -> Digest)
    requires i < |r.pending|
    ensures var r' := Complete(r, i, cfg, t, sha1);
            var url := ProbeUrl(r.pending[i]);
            var p := ProbeOf(r, i, cfg, t, sha1);
            && |r'.output| == |r.output| + (if p.success then 1 else 0)
            && r.output <= r'.output
            && (p.success && !cfg.verbose ==> r'.output[|r.output|] == Plain(url))
            && (p.success && cfg.verbose ==> r'.output[|r.output|] == Json(p.meta.value) && p.meta.value.site == url)
  {
  }

  function HttpsCount(s: seq<Dispatch>): nat {
    if s == [] then 0 else (if s[0].pool == Https then 1 else 0) + HttpsCount(s[1..])
  }

  /** Probes still to come in the worst case: every pending task, plus one
      HTTP follow-up for each pending HTTPS task. */
  function Weight(s: seq<Dispatch>): nat {
    |s| + HttpsCount(s)
  }

  lemma {:induction false} HttpsCountAppend(a: seq<Dispatch>, b: seq<Dispatch>)
    ensures HttpsCount(a + b) == HttpsCount(a) + HttpsCount(b)
  {
    if a == [] {
      assert a + b == b;
    } else {
      assert (a + b)[1..] == a[1..] + b;
      HttpsCountAppend(a[1..], b);
    }
  }

  /** Removing task `i` and appending at most one HTTP follow-up, and
      only for an HTTPS task, lowers the weight by one (follow-up added)
      or by the task's own weight (none added). */
  lemma {:induction false} ReplaceWeight(s: seq<Dispatch>, i: nat, f: seq<Dispatch>)
    requires i < |s|
    requires f == [] || (s[i].pool == Https && f == [Dispatch(Http, s[i].host)])
    ensures Weight(s[..i] + s[i + 1..] + f) + (if f == [] then Weight([s[i]]) else 1) == Weight(s)
  {
    assert s == s[..i] + [s[i]] + s[i + 1..];
    HttpsCountAppend(s[..i] + [s[i]], s[i + 1..]);
    HttpsCountAppend(s[..i], [s[i]]);
    HttpsCountAppend(s[..i] + s[i + 1..], f);
    HttpsCountAppend(s[..i], s[i + 1..]);
  }

  /** Each completed task uses up at least one unit of weight, and exactly
      one without `-prefer-https` (an HTTPS task then always hands on). The
      pending list shrinks by at most one. */
  lemma CompleteUsesWeight(r: Run, i: nat, cfg: Config, t: Transport, sha1: string -> Digest)
    requires i < |r.pending|
    ensures var r' := Complete(r, i, cfg, t, sha1);
            && Weight(r'.pending) < Weight(r.pending)
            && (!cfg.preferHttps ==> Weight(r'.pending) + 1 == Weight(r.pending))
            && |r'.pending| + 1 >= |r.pending|
  {
    var s := r.pending;
    var p := ProbeOf(r, i, cfg, t, sha1);
    var f := FollowUp(s[i], p.success, cfg.preferHttps);
    assert Complete(r, i, cfg, t, sha1).pending == s[..i] + s[i + 1..] + f by {
      assert (s + f)[..i] == s[..i];
      assert (s + f)[i + 1..] == s[i + 1..] + f;
    }
    ReplaceWeight(s, i, f);
    assert [s[i]][1..] == [];
    assert HttpsCount([s[i]]) == (if s[i].pool == Https then 1 else 0);
  }

  /** `wg.Wait()`: workers take pending tasks, in an order chosen freely,
      until none is left. Every dispatched task is probed; each HTTPS task
      adds at most one more probe, and exactly one without `-prefer-https`;
      the registry only grows, and output is only appended. */
  method Drain(r0: Run, cfg: Config, transport: (string, nat) -> Transport, sha1: string -> Digest)
    returns (r: Run, probes: nat)
    requires Valid(r0)
    ensures Valid(r) && r.pending == [] && r.counter == 0
    ensures |r0.pending| <= probes <= Weight(r0.pending)
    ensures !cfg.preferHttps ==> probes == Weight(r0.pending)
    ensures r0.output <= r.output && |r.output| <= |r0.output| + probes
    ensures r.detector.Some? <==> r0.detector.Some?
    ensures r0.detector.Some? ==> r0.detector.value.hashes <= r.detector.value.hashes
  {
    r := r0;
    probes := 0;
    while r.pending != []
      invariant Valid(r)
      invariant probes + Weight(r.pending) <= Weight(r0.pending)
      invariant !cfg.preferHttps ==> probes + Weight(r.pending) == Weight(r0.pending)
      invariant probes + |r.pending| >= |r0.pending|
      invariant r0.output <= r.output && |r.output| <= |r0.output| + probes
      invariant r.detector.Some? <==> r0.detector.Some?
      invariant r0.detector.Some? ==> r0.detector.value.hashes <= r.detector.value.hashes
      decreases Weight(r.pending)
    {
      var i :| 0 <= i < |r.pending|;
      var t := transport(ProbeUrl(r.pending[i]), probes);
      CompleteUsesWeight(r, i, cfg, t, sha1);
      r := Complete(r, i, cfg, t, sha1);
      probes := probes + 1;
    }
  }

  /** The dispatches of several lines, in input order. */
  function GenerateAll(lines: seq<string>, cfg: Config, expand: string -> Option<seq<string>>): seq<Dispatch> {
    if lines == [] then []
    else GenerateAll(lines[..|lines| - 1], cfg, expand) + Generate(lines[|lines| - 1], cfg, expand)
  }

  /** The whole of `main` after flag parsing: every line's dispatches are
      submitted, then `wg.Wait()` returns once the counter is back to zero.
      The number of probes lies between the number of dispatches and their
      weight, and each probe prints at most one line. */
  method ProbeAll(lines: seq<string>, cfg: Config, expand: string -> Option<seq<string>>,
                  transport: (string, nat) -> Transport, sha1: string -> Digest)
    returns (output: seq<Report>, probes: nat)
    ensures |GenerateAll(lines, cfg, expand)| <= probes <= Weight(GenerateAll(lines, cfg, expand))
    ensures !cfg.preferHttps ==> probes == Weight(GenerateAll(lines, cfg, expand))
    ensures |output| <= probes
  {
    var r := Start(cfg);
    var k := 0;
    while k < |lines|
      invariant 0 <= k <= |lines|
      invariant Valid(r) && r.output == []
      invariant r.pending == GenerateAll(lines[..k], cfg, expand)
    {
      assert lines[..k + 1][..k] == lines[..k];
      r := Submit(r, Generate(lines[k], cfg, expand));
      k := k + 1;
    }
    assert lines[..k] == lines;
    r, probes := Drain(r, cfg, transport, sha1);
    output := r.output;
  }
}
