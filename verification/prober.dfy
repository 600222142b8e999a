/** `isWorking` in main.go: what happens after the transport call. The
    request itself (`client.DoTimeout` on a fresh connection, TLS checks off,
    body skipped) is foreign; its outcome is an input. */
module Prober {
  import opened Wrappers
  import opened Similarity
  import opened Fingerprint

  /** What `DoTimeout` returned: an error (refused, TLS failure, timeout,
      malformed response) or a response. Of a response only the status,
      the header and cookie names, and three header values are read;
      an absent header reads as the empty string. */
  datatype Transport =
    | Failed(reason: string)
    | Response(statusCode: int, headerNames: seq<string>, cookieNames: seq<string>,
               server: string, contentType: string, location: string)

  /** `verboseStruct`, the record printed as JSON under `-v`. */
  datatype Verbose = Verbose(site: string, statusCode: int, server: string, contentType: string, location: string)

  /** Why a probe counts as not working: the transport error, or the
      "similar another site" rejection of a duplicate fingerprint. */
  datatype ProbeError = TransportError(reason: string) | SimilarSite

  /** The three results of `isWorking`, and the registry after the call
      (`None` when `-detect-similar` is off and no registry exists). */
  datatype Probed = Probed(success: bool, meta: Option<Verbose>, err: Option<ProbeError>, detector: Option<Similar>)

  /** `isWorking(url, verbose)` given the transport outcome. Success means
      a response arrived and, with a registry, its fingerprint was new; the
      registry is touched only when a response arrived; metadata exists
      only for a success under `-v`. */
  function IsWorking(url: string, verbose: bool, detector: Option<Similar>, t: Transport,
                     sha1: string -> Digest): (p: Probed)
    ensures t.Failed? ==> !p.success && p.err == Some(TransportError(t.reason)) && p.detector == detector
    ensures p.success <==>
              t.Response? && (detector.None? || Of(t.headerNames, t.cookieNames, sha1) !in detector.value.hashes)
    ensures p.err.Some? <==> !p.success
    ensures p.err == Some(SimilarSite) <==>
              t.Response? && detector.Some? && Of(t.headerNames, t.cookieNames, sha1) in detector.value.hashes
    ensures p.detector.Some? <==> detector.Some?
    ensures t.Response? && detector.Some? ==>
              p.detector.value.hashes == detector.value.hashes + {Of(t.headerNames, t.cookieNames, sha1)}
    ensures p.meta.Some? <==> p.success && verbose
    ensures p.meta.Some? ==>
              p.meta.value == Verbose(url, t.statusCode, t.server, t.contentType, t.location)
  {
    match t
    case Failed(reason) => Probed(false, None, Some(TransportError(reason)), detector)
    case Response(status, headers, cookies, server, contentType, location) =>
      var gate: (bool, Option<Similar>) :=
        match detector
        case None => (true, None)
        case Some(s) =>
          var added := Add(s, Of(headers, cookies, sha1));
          (added.1, Some(added.0));
      if !gate.0 then Probed(false, None, Some(SimilarSite), gate.1)
      else
        var meta := if verbose then Some(Verbose(url, status, server, contentType, location)) else None;
        Probed(true, meta, None, gate.1)
  }

  /** With `-detect-similar`, of two responses that carry the same header and
      cookie names (in any order), only the first probed is reported: the
      second is rejected as similar, even at a different URL. */
  lemma LookalikeSuppressed(url1: string, url2: string, verbose: bool, s: Similar,
                            t1: Transport, t2: Transport, sha1: string -> Digest)
    requires t1.Response? && t2.Response?
    requires multiset(t1.headerNames) == multiset(t2.headerNames)
    requires multiset(t1.cookieNames) == multiset(t2.cookieNames)
    ensures var p1 := IsWorking(url1, verbose, Some(s), t1, sha1);
            var p2 := IsWorking(url2, verbose, p1.detector, t2, sha1);
            !p2.success && p2.err == Some(SimilarSite)
  {
    OfIgnoresOrder(t1.headerNames, t1.cookieNames, t2.headerNames, t2.cookieNames, sha1);
  }
}
