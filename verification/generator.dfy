/** The body of the input loop in `main` (main.go:188-274): each input line
    becomes an ordered list of dispatches, each a host string handed to the
    HTTPS or the HTTP worker pool. Modes are tried in a fixed order: CIDR
    expansion, ports on the same line, explicit scheme, then the bare host
    plus the `-p` probe specs. */
module Generator {
  import opened Wrappers
  import opened Sequences
  import opened Strings
  import opened Ports

  datatype Pool = Http | Https

  /** One `pool.Invoke(host)`; the worker prefixes the host with its scheme. */
  datatype Dispatch = Dispatch(pool: Pool, host: string)

  /** The switches that shape generation and the workers: `-cidr`, `-l`,
      `-s`, the repeated `-p`, `-prefer-https`, `-detect-similar`, `-v`. */
  datatype Config = Config(
    cidrInput: bool,
    sameLinePorts: bool,
    skipDefault: bool,
    probes: seq<string>,
    preferHttps: bool,
    detectSimilar: bool,
    verbose: bool)

  function Scheme(p: Pool): string {
    match p
    case Http => "http://"
    case Https => "https://"
  }

  /** The URL a worker of the dispatch's pool probes. */
  function ProbeUrl(d: Dispatch): string {
    Scheme(d.pool) + d.host
  }

  /** `urlRegex`, `^(http|ws)s?://`, matched step by step: one of the two
      alternatives, an optional `s`, then `://`. */
  predicate MatchesScheme(line: string) {
    var rest :=
      if HasPrefix(line, "http") then Some(line[4..])
      else if HasPrefix(line, "ws") then Some(line[2..])
      else None;
    rest.Some? && (HasPrefix(rest.value, "://") || HasPrefix(rest.value, "s://"))
  }

  /** The regular expression accepts exactly the lines that start with one
      of the four literal prefixes. */
  lemma MatchesSchemeIffPrefix(line: string)
    ensures MatchesScheme(line) <==>
      || HasPrefix(line, "http://") || HasPrefix(line, "https://")
      || HasPrefix(line, "ws://") || HasPrefix(line, "wss://")
  {
    assert "http" + "://" == "http://" && "http" + "s://" == "https://";
    assert "ws" + "://" == "ws://" && "ws" + "s://" == "wss://";
    HasPrefixConcat(line, "http", "://");
    HasPrefixConcat(line, "http", "s://");
    HasPrefixConcat(line, "ws", "://");
    HasPrefixConcat(line, "ws", "s://");
    if HasPrefix(line, "http") {
      assert line[0] == 'h';
    }
    if HasPrefix(line, "ws") {
      assert line[0] == 'w';
    }
  }

  /** Explicit-scheme mode: `http://` lines go to the HTTP pool with the
      scheme stripped, every other match to the HTTPS pool with a leading
      `https://` stripped. So http and https lines are probed at exactly the
      URL written, while `ws://` and `wss://` lines keep their scheme and are
      probed as `https://ws://...`. */
  function SchemeDispatch(line: string): (d: Dispatch)
    ensures d.pool == Http <==> HasPrefix(line, "http://")
    ensures HasPrefix(line, "http://") || HasPrefix(line, "https://") ==> ProbeUrl(d) == line
    ensures !HasPrefix(line, "http://") && !HasPrefix(line, "https://") ==> d == Dispatch(Https, line)
  {
    if HasPrefix(line, "http://") then Dispatch(Http, TrimPrefix(line, "http://"))
    else Dispatch(Https, TrimPrefix(line, "https://"))
  }

  /** One dispatch to `pool` of `host:port` per port, in order. */
  function WithPorts(pool: Pool, host: string, ports: seq<string>): (ds: seq<Dispatch>)
    ensures |ds| == |ports|
    ensures forall i :: 0 <= i < |ports| ==> ds[i] == Dispatch(pool, host + ":" + ports[i])
  {
    if ports == [] then []
    else [Dispatch(pool, host + ":" + ports[0])] + WithPorts(pool, host, ports[1..])
  }

  /** CIDR mode: one HTTPS dispatch per expanded address, in expansion
      order; nothing when the line does not parse as a CIDR block. */
  function CidrDispatches(expansion: Option<seq<string>>): (ds: seq<Dispatch>)
    ensures expansion.None? ==> ds == []
    ensures expansion.Some? ==>
              |ds| == |expansion.value|
              && forall i :: 0 <= i < |ds| ==> ds[i] == Dispatch(Https, expansion.value[i])
  {
    match expansion
    case None => []
    case Some(addrs) => HttpsEach(addrs)
  }

  function HttpsEach(hosts: seq<string>): (ds: seq<Dispatch>)
    ensures |ds| == |hosts|
    ensures forall i :: 0 <= i < |ds| ==> ds[i] == Dispatch(Https, hosts[i])
  {
    if hosts == [] then [] else [Dispatch(Https, hosts[0])] + HttpsEach(hosts[1..])
  }

  /** The ports of a same-line entry: each field trimmed, blank ones dropped,
      order kept. */
  function PortFields(fields: seq<string>): (ports: seq<string>)
    ensures |ports| <= |fields|
    ensures forall p :: p in ports ==> p != [] && IsTrimmed(p)
    ensures forall f :: f in fields && TrimSpace(f) != [] ==> TrimSpace(f) in ports
  {
    if fields == [] then []
    else
      var t := TrimSpace(fields[0]);
      assert fields == [fields[0]] + fields[1..];
      (if t == [] then [] else [t]) + PortFields(fields[1..])
  }

  /** One field on its own: dropped when blank, otherwise kept trimmed.
      With `PortFieldsAppend` this fixes `PortFields` on every list. */
  lemma PortFieldsOne(f: string)
    ensures PortFields([f]) == (if TrimSpace(f) == [] then [] else [TrimSpace(f)])
  {
    assert [f][1..] == [];
  }

  /** `PortFields` works field by field: it distributes over concatenation. */
  lemma {:induction false} PortFieldsAppend(a: seq<string>, b: seq<string>)
    ensures PortFields(a + b) == PortFields(a) + PortFields(b)
  {
    if a == [] {
      assert a + b == b;
    } else {
      TailOfConcat(a, b);
      PortFieldsAppend(a[1..], b);
      var t := TrimSpace(a[0]);
      var first: seq<string> := if t == [] then [] else [t];
      assert PortFields(a + b) == first + PortFields(a[1..] + b);
      assert PortFields(a) == first + PortFields(a[1..]);
      ConcatAssoc(first, PortFields(a[1..]), PortFields(b));
    }
  }

  /** Same-line-ports mode: `host,port,port,...`. The host field is used as
      split, untrimmed; fewer than two fields yields nothing. */
  function SameLineDispatches(line: string): (ds: seq<Dispatch>)
    ensures forall d :: d in ds ==> d.pool == Https
    ensures |Split(line, ',')| < 2 ==> ds == []
    ensures |ds| < |Split(line, ',')|
  {
    var fields := Split(line, ',');
    if |fields| < 2 then [] else WithPorts(Https, fields[0], PortFields(fields[1..]))
  }

  /** The dispatches one `-p` value adds for a host: a named table gives one
      HTTPS dispatch per table port; any other value is split at its first
      `:`, skipped when it has none, and otherwise gives one dispatch of
      `host:rest`, to the HTTP pool only when the part before the colon is
      exactly `http`. */
  function SpecDispatches(line: string, spec: string): (ds: seq<Dispatch>)
    ensures NamedListOf(spec).Some? ==>
              var ports := Table(NamedListOf(spec).value);
              |ds| == |ports| && forall i :: 0 <= i < |ds| ==> ds[i] == Dispatch(Https, line + ":" + ports[i])
    ensures NamedListOf(spec).None? && ':' !in spec ==> ds == []
    ensures |ds| <= 70
  {
    match NamedListOf(spec)
    case Some(n) => WithPorts(Https, line, Table(n))
    case None =>
      match Cut(spec, ':')
      case None => []
      case Some(pair) => [Dispatch(if pair.0 == "http" then Http else Https, line + ":" + pair.1)]
  }

  /** An explicit `proto:port` spec: one dispatch of `host:port`, HTTP iff
      the protocol is exactly `http` (so `https`, `HTTP` or `ftp` all go to
      the HTTPS pool). Everything after the first colon is the port. */
  lemma ExplicitSpec(line: string, proto: string, port: string)
    requires ':' !in proto
    ensures SpecDispatches(line, proto + ":" + port)
         == [Dispatch(if proto == "http" then Http else Https, line + ":" + port)]
  {
    CutUnique(proto, ':', port);
    assert ':' in proto + ":" + port by { assert (proto + ":" + port)[|proto|] == ':'; }
  }

  /** All `-p` values in order. */
  function ProbeDispatches(line: string, probes: seq<string>): (ds: seq<Dispatch>)
  {
    if probes == [] then []
    else SpecDispatches(line, probes[0]) + ProbeDispatches(line, probes[1..])
  }

  /** Every dispatch a spec adds is for `line:` followed by a port. */
  lemma {:induction false} ProbeHostsExtendLine(line: string, probes: seq<string>)
    ensures forall d :: d in ProbeDispatches(line, probes) ==> HasPrefix(d.host, line + ":")
  {
    if probes != [] {
      var first := SpecDispatches(line, probes[0]);
      forall d | d in first
        ensures HasPrefix(d.host, line + ":")
      {
        var i :| 0 <= i < |first| && first[i] == d;
        assert (line + ":" + d.host[|line| + 1..]) == d.host;
      }
      ProbeHostsExtendLine(line, probes[1..]);
    }
  }

  /** A single spec gives exactly its own dispatches; with
      `ProbeDispatchesAppend` this fixes `ProbeDispatches` on every list. */
  lemma ProbeDispatchesOne(line: string, spec: string)
    ensures ProbeDispatches(line, [spec]) == SpecDispatches(line, spec)
  {
    assert [spec][1..] == [];
  }

  /** Specs are handled one after another: the dispatches of a list of
      specs are those of its parts, concatenated in order. */
  lemma {:induction false} ProbeDispatchesAppend(line: string, a: seq<string>, b: seq<string>)
    ensures ProbeDispatches(line, a + b) == ProbeDispatches(line, a) + ProbeDispatches(line, b)
  {
    if a == [] {
      assert a + b == b;
    } else {
      TailOfConcat(a, b);
      ProbeDispatchesAppend(line, a[1..], b);
      var first := SpecDispatches(line, a[0]);
      assert ProbeDispatches(line, a + b) == first + ProbeDispatches(line, a[1..] + b);
      ConcatAssoc(first, ProbeDispatches(line, a[1..]), ProbeDispatches(line, b));
    }
  }

  /** Only a spec that starts with `http:` can reach the HTTP pool: named
      tables and every other protocol go to HTTPS. */
  lemma {:induction false} HttpOnlyFromHttpSpecs(line: string, probes: seq<string>)
    requires forall k :: 0 <= k < |probes| ==> !HasPrefix(probes[k], "http:")
    ensures forall d :: d in ProbeDispatches(line, probes) ==> d.pool == Https
  {
    if probes != [] {
      var spec := probes[0];
      assert !HasPrefix(spec, "http:");
      HttpOnlyFromHttpSpecs(line, probes[1..]);
    }
  }

  /** Default mode: the bare host to HTTPS unless `-s`, then the specs. */
  function DefaultDispatches(line: string, cfg: Config): (ds: seq<Dispatch>)
    ensures !cfg.skipDefault ==> |ds| >= 1 && ds[0] == Dispatch(Https, line)
    ensures |ds| == |ProbeDispatches(line, cfg.probes)| + (if cfg.skipDefault then 0 else 1)
    ensures ds[(if cfg.skipDefault then 0 else 1)..] == ProbeDispatches(line, cfg.probes)
  {
    (if cfg.skipDefault then [] else [Dispatch(Https, line)]) + ProbeDispatches(line, cfg.probes)
  }

  /** One input line, as scanned. `expand` is the CIDR library: the
      addresses of a block in order, or `None` when the line does not parse.
      Blank lines yield nothing, and CIDR and same-line modes only feed the
      HTTPS pool. */
  function Generate(raw: string, cfg: Config, expand: string -> Option<seq<string>>): (ds: seq<Dispatch>)
    ensures TrimSpace(raw) == [] ==> ds == []
    ensures cfg.cidrInput || cfg.sameLinePorts ==> forall d :: d in ds ==> d.pool == Https
  {
    var line := TrimSpace(raw);
    if line == [] then [] else GenerateLine(line, cfg, expand)
  }

  /** The modes, in priority order, for a trimmed non-blank line. */
  function GenerateLine(line: string, cfg: Config, expand: string -> Option<seq<string>>): (ds: seq<Dispatch>)
    ensures cfg.cidrInput || cfg.sameLinePorts ==> forall d :: d in ds ==> d.pool == Https
  {
    if cfg.cidrInput then CidrDispatches(expand(line))
    else if cfg.sameLinePorts then SameLineDispatches(line)
    else if MatchesScheme(line) then [SchemeDispatch(line)]
    else DefaultDispatches(line, cfg)
  }

  /** CIDR mode wins over every other switch: the result depends only on the
      expansion, one HTTPS dispatch per address and none on a parse failure,
      whatever `-l`, `-s` and `-p` say. */
  lemma GenerateCidr(raw: string, cfg: Config, expand: string -> Option<seq<string>>)
    requires TrimSpace(raw) != [] && cfg.cidrInput
    ensures var ds := Generate(raw, cfg, expand);
            match expand(TrimSpace(raw))
            case None => ds == []
            case Some(addrs) => |ds| == |addrs| && forall i :: 0 <= i < |ds| ==> ds[i] == Dispatch(Https, addrs[i])
  {
  }

  /** Explicit-scheme mode: exactly one dispatch, whatever `-s` and `-p`
      say; an `http://` or `https://` line is probed at the URL written. */
  lemma GenerateScheme(raw: string, cfg: Config, expand: string -> Option<seq<string>>)
    requires var line := TrimSpace(raw);
             line != [] && !cfg.cidrInput && !cfg.sameLinePorts
             && (HasPrefix(line, "http://") || HasPrefix(line, "https://"))
    ensures var ds := Generate(raw, cfg, expand);
            |ds| == 1 && ProbeUrl(ds[0]) == TrimSpace(raw)
            && (ds[0].pool == Http <==> HasPrefix(TrimSpace(raw), "http://"))
  {
    MatchesSchemeIffPrefix(TrimSpace(raw));
  }

  /** A `ws://` or `wss://` line matches the scheme pattern but nothing is
      stripped: one HTTPS dispatch of the whole line. */
  lemma GenerateWebSocket(raw: string, cfg: Config, expand: string -> Option<seq<string>>)
    requires var line := TrimSpace(raw);
             !cfg.cidrInput && !cfg.sameLinePorts
             && (HasPrefix(line, "ws://") || HasPrefix(line, "wss://"))
    ensures Generate(raw, cfg, expand) == [Dispatch(Https, TrimSpace(raw))]
  {
    var line := TrimSpace(raw);
    WebSocketLine(line);
    GenerateOfLine(raw, cfg, expand);
  }

  /** A `ws://` or `wss://` line is a scheme line that keeps its text. */
  lemma WebSocketLine(line: string)
    requires HasPrefix(line, "ws://") || HasPrefix(line, "wss://")
    ensures MatchesScheme(line) && SchemeDispatch(line) == Dispatch(Https, line)
  {
    MatchesSchemeIffPrefix(line);
    assert line[0] == 'w';
    assert !HasPrefix(line, "http://") && !HasPrefix(line, "https://");
  }

  /** A non-blank line is handled by the modes on its trimmed text. */
  lemma GenerateOfLine(raw: string, cfg: Config, expand: string -> Option<seq<string>>)
    requires TrimSpace(raw) != []
    ensures Generate(raw, cfg, expand) == GenerateLine(TrimSpace(raw), cfg, expand)
  {
  }

  /** A line no other mode claims falls through to default mode. */
  lemma GenerateLineDefault(line: string, cfg: Config, expand: string -> Option<seq<string>>)
    requires !cfg.cidrInput && !cfg.sameLinePorts && !MatchesScheme(line)
    ensures GenerateLine(line, cfg, expand) == DefaultDispatches(line, cfg)
  {
  }

  /** Default mode at the level of a whole input line: the bare host on
      HTTPS unless `-s`, then every `-p` spec's dispatches in order. */
  lemma GenerateDefault(raw: string, cfg: Config, expand: string -> Option<seq<string>>)
    requires TrimSpace(raw) != [] && !cfg.cidrInput && !cfg.sameLinePorts && !MatchesScheme(TrimSpace(raw))
    ensures Generate(raw, cfg, expand)
         == (if cfg.skipDefault then [] else [Dispatch(Https, TrimSpace(raw))]) + ProbeDispatches(TrimSpace(raw), cfg.probes)
  {
    GenerateOfLine(raw, cfg, expand);
    GenerateLineDefault(TrimSpace(raw), cfg, expand);
  }

  /** In default mode `-s` drops the leading bare-host dispatch and nothing else. */
  lemma DefaultSkip(line: string, cfg: Config)
    requires !cfg.skipDefault
    ensures DefaultDispatches(line, cfg) == [Dispatch(Https, line)] + DefaultDispatches(line, cfg.(skipDefault := true))
    ensures DefaultDispatches(line, cfg.(skipDefault := true)) == ProbeDispatches(line, cfg.probes)
  {
  }

  /** `-s` removes only the bare-host dispatch; the `-p` expansion is the
      same with or without it. */
  lemma SkipDefaultDropsOnlyBareHost(raw: string, cfg: Config, expand: string -> Option<seq<string>>)
    requires var line := TrimSpace(raw);
             line != [] && !cfg.cidrInput && !cfg.sameLinePorts && !MatchesScheme(line)
    ensures Generate(raw, cfg.(skipDefault := false), expand)
         == [Dispatch(Https, TrimSpace(raw))] + Generate(raw, cfg.(skipDefault := true), expand)
  {
    var line := TrimSpace(raw);
    var on := cfg.(skipDefault := false);
    var off := cfg.(skipDefault := true);
    GenerateOfLine(raw, on, expand);
    GenerateOfLine(raw, off, expand);
    GenerateLineDefault(line, on, expand);
    GenerateLineDefault(line, off, expand);
    DefaultSkip(line, on);
    assert on.(skipDefault := true) == off;
  }

  /** Same-line mode takes any non-blank line, whatever `-s`, `-p` or the
      scheme pattern would say. */
  lemma GenerateSameLine(raw: string, cfg: Config, expand: string -> Option<seq<string>>)
    requires TrimSpace(raw) != [] && !cfg.cidrInput && cfg.sameLinePorts
    ensures Generate(raw, cfg, expand) == SameLineDispatches(TrimSpace(raw))
  {
    GenerateOfLine(raw, cfg, expand);
  }

  /** The same-line rule for a whole input line: once the line is trimmed,
      its first field is the host, used as it stands (a space before the
      first comma stays), and each later field gives one HTTPS dispatch of
      `host:port` for its trimmed value, blank fields giving none, in field
      order. */
  lemma GenerateSameLinePorts(raw: string, host: string, ports: seq<string>, cfg: Config,
                              expand: string -> Option<seq<string>>)
    requires !cfg.cidrInput && cfg.sameLinePorts
    requires ',' !in host && |ports| >= 1
    requires forall i :: 0 <= i < |ports| ==> ',' !in ports[i]
    requires TrimSpace(raw) == host + "," + Join(ports, ",")
    ensures var ds := Generate(raw, cfg, expand);
            var kept := PortFields(ports);
            |ds| == |kept| && forall i :: 0 <= i < |ds| ==> ds[i] == Dispatch(Https, host + ":" + kept[i])
  {
    var line := TrimSpace(raw);
    var rest := Join(ports, ",");
    SplitAtFirst(host, ',', rest);
    SplitJoin(ports, ',');
    TailOfConcat([host], ports);
    assert Split(line, ',') == [host] + ports;
    GenerateSameLine(raw, cfg, expand);
  }

  /** `a ,8080` in same-line mode probes `a :8080`: the host field keeps the
      space before the comma. */
  lemma SameLineUntrimmedHost(cfg: Config, expand: string -> Option<seq<string>>)
    requires !cfg.cidrInput && cfg.sameLinePorts
    ensures Generate("a ,8080", cfg, expand) == [Dispatch(Https, "a :8080")]
  {
    var raw := "a ,8080";
    assert IsTrimmed(raw);
    TrimmedIsFixed(raw);
    assert raw == "a " + "," + Join(["8080"], ",");
    assert IsTrimmed("8080");
    TrimmedIsFixed("8080");
    PortFieldsOne("8080");
    GenerateSameLinePorts(raw, "a ", ["8080"], cfg, expand);
    HostPortText();
  }

  /** The text of the dispatch in `SameLineUntrimmedHost`. */
  lemma HostPortText()
    ensures "a " + ":" + "8080" == "a :8080"
  {
  }

  /** A trailing comma in same-line mode changes nothing: the empty last
      field yields no dispatch. */
  lemma SameLineTrailingComma(line: string)
    ensures SameLineDispatches(line + ",") == SameLineDispatches(line)
  {
    SplitTrailingSeparator(line, ',');
    var fields := Split(line, ',');
    assert Split(line + ",", ',') == fields + [[]];
    TrimmedIsFixed([]);
    assert PortFields([[]]) == [];
    if |fields| >= 2 {
      assert (fields + [[]])[1..] == fields[1..] + [[]];
      PortFieldsAppend(fields[1..], [[]]);
    }
  }

  /** The same for a whole input line. */
  lemma GenerateTrailingComma(line: string, cfg: Config, expand: string -> Option<seq<string>>)
    requires line != [] && IsTrimmed(line)
    requires !cfg.cidrInput && cfg.sameLinePorts
    ensures Generate(line + ",", cfg, expand) == Generate(line, cfg, expand)
  {
    var s := line + ",";
    assert IsTrimmed(s);
    TrimmedIsFixed(s);
    TrimmedIsFixed(line);
    SameLineTrailingComma(line);
  }

  lemma SplitThree(a: string, b: string, c: string)
    requires ',' !in a && ',' !in b && ',' !in c
    ensures Split(a + "," + b + "," + c, ',') == [a, b, c]
  {
    assert a + "," + b + "," + c == a + [','] + (b + [','] + c);
    SplitAtFirst(a, ',', b + [','] + c);
    SplitAtFirst(b, ',', c);
    SplitNoSeparator(c, ',');
  }

  /** Port fields that are already trimmed and non-blank are kept as they are. */
  lemma {:induction false} PortFieldsOfTrimmed(ports: seq<string>)
    requires forall p :: p in ports ==> p != [] && IsTrimmed(p)
    ensures PortFields(ports) == ports
  {
    if ports != [] {
      var t := ports[0];
      TrimmedIsFixed(t);
      var rest := ports[1..];
      forall p | p in rest
        ensures p != [] && IsTrimmed(p)
      {
        assert p in ports;
      }
      PortFieldsOfTrimmed(rest);
      assert PortFields(ports) == [t] + PortFields(rest);
      HeadTail(ports);
    }
  }

  /** `host,port1,port2` (say `example.com,8080,8443`) gives `host:port1`
      and `host:port2` on the HTTPS pool, in that order. */
  lemma SameLineTwoPorts(host: string, p1: string, p2: string, cfg: Config, expand: string -> Option<seq<string>>)
    requires ',' !in host && ',' !in p1 && ',' !in p2
    requires p1 != [] && IsTrimmed(p1) && p2 != [] && IsTrimmed(p2)
    requires host != [] && IsTrimmed(host)
    requires !cfg.cidrInput && cfg.sameLinePorts
    ensures Generate(host + "," + p1 + "," + p2, cfg, expand)
         == [Dispatch(Https, host + ":" + p1), Dispatch(Https, host + ":" + p2)]
  {
    var line := host + "," + p1 + "," + p2;
    assert line[0] == host[0];
    assert line[|line| - 1] == p2[|p2| - 1];
    TrimmedIsFixed(line);
    SplitThree(host, p1, p2);
    PortFieldsOfTrimmed([p1, p2]);
    assert [host, p1, p2][1..] == [p1, p2];
    assert Generate(line, cfg, expand) == SameLineDispatches(line);
  }
}
