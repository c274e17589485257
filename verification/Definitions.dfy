/** Health checks as the catalog holds them, and the probe configuration they ask for (check.go). */
module Definitions {
  import opened Options

  /** A Go slice of header values; a missing map entry reads as nil, which differs from an empty slice. */
  datatype HeaderValues = Nil | Values(values: seq<string>)

  type Headers = map<string, HeaderValues>

  datatype Definition = Definition(
    http: string, header: Headers, httpMethod: string,
    tlsSkipVerify: bool, tlsServerName: string,
    tcp: string,
    grpc: string, grpcUseTLS: bool,
    interval: int, timeout: int,
    deregisterAfter: string, deregisterAfterDuration: int)

  datatype HealthCheck = HealthCheck(
    node: string, checkID: string, serviceID: string, status: string, output: string, definition: Definition)

  /** externalCheckName: the node check that the ping side owns. */
  const EXTERNAL_CHECK_NAME := "externalNodeHealth"

  const CRITICAL := "critical"
  const PASSING := "passing"

  /** maxTxnOps: the most operations one Consul transaction may hold. */
  const MAX_TXN_OPS: nat := 64

  /** defaultInterval: 30 seconds, in nanoseconds. */
  const DEFAULT_INTERVAL: int := 30_000_000_000

  datatype Kind = HTTP | TCP | GRPC

  function Field(d: Definition, k: Kind): string {
    match k
    case HTTP => d.http
    case TCP => d.tcp
    case GRPC => d.grpc
  }

  /** The kind a definition is run as: the first non-empty field of the three. */
  function KindOf(d: Definition): Option<Kind> {
    if d.http != "" then Some(HTTP)
    else if d.tcp != "" then Some(TCP)
    else if d.grpc != "" then Some(GRPC)
    else None
  }

  ghost predicate SingleKind(d: Definition) {
    forall j, k :: Field(d, j) != "" && Field(d, k) != "" ==> j == k
  }

  /** The interval a check runs at: the default when unset, and never below the minimum. */
  function ClampInterval(interval: int, minimum: int): int {
    var i := if interval == 0 then DEFAULT_INTERVAL else interval;
    if i < minimum then minimum else i
  }

  datatype TLS = TLS(skipVerify: bool, serverName: string)

  /** What a running probe was built with. `target` is the URL or address of its kind. */
  datatype ProbeConf = ProbeConf(
    kind: Kind, target: string, header: Headers, httpMethod: string, tls: Option<TLS>, interval: int, timeout: int)

  /** The copy of a definition with the interval its check will run at. */
  function Clamped(d: Definition, minimum: int): Definition {
    d.(interval := ClampInterval(d.interval, minimum))
  }

  /** The probe built from such a copy. HTTP probes always carry TLS settings, TCP ones never, GRPC on request. */
  function ProbeFor(k: Kind, d: Definition): ProbeConf {
    var tls := TLS(d.tlsSkipVerify, d.tlsServerName);
    match k
    case HTTP => ProbeConf(HTTP, d.http, d.header, d.httpMethod, Some(tls), d.interval, d.timeout)
    case TCP => ProbeConf(TCP, d.tcp, map[], "", None, d.interval, d.timeout)
    case GRPC => ProbeConf(GRPC, d.grpc, map[], "", if d.grpcUseTLS then Some(tls) else None, d.interval, d.timeout)
  }

  /** The probe a definition asks for. */
  function ConfFor(d: Definition, k: Kind, minimum: int): ProbeConf {
    ProbeFor(k, Clamped(d, minimum))
  }

  function HeaderAt(h: Headers, k: string): HeaderValues {
    if k in h then h[k] else Nil
  }

  /** headersAlmostEqual: every key of the old header, but for the two Consul adds itself, has its value in the new. */
  predicate HeadersAlmostEqual(h1: Headers, h2: Headers) {
    forall k | k in h1 && !AddedByLibrary(k) :: h1[k] == HeaderAt(h2, k)
  }

  /** Whether a running probe is left alone by a newer definition of its kind. */
  predicate KeepsProbe(was: ProbeConf, wanted: ProbeConf, oldDef: Definition, newDef: Definition) {
    && was.target == wanted.target
    && HeadersAlmostEqual(was.header, wanted.header)
    && was.httpMethod == wanted.httpMethod
    && was.tls == wanted.tls
    && was.interval == wanted.interval
    && was.timeout == wanted.timeout
    && (wanted.kind == GRPC ==> oldDef.grpcUseTLS == newDef.grpcUseTLS)
    && oldDef.deregisterAfter == newDef.deregisterAfter
  }

  predicate AddedByLibrary(k: string) {
    k == "User-Agent" || k == "Accept"
  }

  /** The two header maps send the same, but for what the library adds. */
  ghost predicate SameHeaders(h1: Headers, h2: Headers) {
    forall k | !AddedByLibrary(k) :: HeaderAt(h1, k) == HeaderAt(h2, k)
  }

  /** The comparison is one-sided: it takes different headers for equal exactly when the new ones only add to the old.
      */
  lemma OneSidedComparison(h1: Headers, h2: Headers)
    requires HeadersAlmostEqual(h1, h2)
    ensures SameHeaders(h1, h2) <==> forall k | !AddedByLibrary(k) && k !in h1 :: HeaderAt(h2, k) == Nil
  {
    forall k | !AddedByLibrary(k) ensures k in h1 ==> HeaderAt(h1, k) == HeaderAt(h2, k) {
    }
    if forall k | !AddedByLibrary(k) && k !in h1 :: HeaderAt(h2, k) == Nil {
      forall k | !AddedByLibrary(k) ensures HeaderAt(h1, k) == HeaderAt(h2, k) {
        assert k !in h1 ==> HeaderAt(h2, k) == Nil;
      }
    }
  }

  /** When a newer definition leaves the probe of an older one alone: exactly if it says the same of all that a probe
      of that kind uses, but for headers that it only adds, and of the time after which the service is to be
      deregistered. */
  lemma WhenAChangeGoesUnnoticed(k: Kind, was: Definition, d: Definition, minimum: int)
    ensures KeepsProbe(ConfFor(was, k, minimum), ConfFor(d, k, minimum), was, d)
      <==> && Field(was, k) == Field(d, k) && was.timeout == d.timeout && was.deregisterAfter == d.deregisterAfter
           && ClampInterval(was.interval, minimum) == ClampInterval(d.interval, minimum)
           && match k
              case HTTP =>
                && was.httpMethod == d.httpMethod
                && was.tlsSkipVerify == d.tlsSkipVerify && was.tlsServerName == d.tlsServerName
                && forall key | key in was.header && key != "User-Agent" && key != "Accept" ::
                     was.header[key] == if key in d.header then d.header[key] else Nil
              case TCP => true
              case GRPC =>
                && was.grpcUseTLS == d.grpcUseTLS
                && (d.grpcUseTLS ==> was.tlsSkipVerify == d.tlsSkipVerify && was.tlsServerName == d.tlsServerName)
  {
    if k == HTTP && forall key | key in was.header && key != "User-Agent" && key != "Accept" ::
                      was.header[key] == if key in d.header then d.header[key] else Nil {
      assert HeadersAlmostEqual(was.header, d.header);
    }
  }

  /** A header added to a check that had none goes unnoticed. */
  lemma AddedHeaderIsMissed()
    ensures var h := map["X-Token" := Values(["t"])]; HeadersAlmostEqual(map[], h) && !SameHeaders(map[], h)
  {
    var h: Headers := map["X-Token" := Values(["t"])];
    assert HeaderAt(map[], "X-Token") != HeaderAt(h, "X-Token");
  }

  /** h1 is h2 with the library's own headers put in or changed: it writes into the map a probe was given. */
  ghost predicate Decorates(h1: Headers, h2: Headers) {
    forall k | !AddedByLibrary(k) :: Get(h1, k) == Get(h2, k)
  }

  /** Its additions never make the comparison fail. */
  lemma DecorationIsInvisible(h1: Headers, h2: Headers, wanted: Headers)
    requires Decorates(h1, h2) && HeadersAlmostEqual(h2, wanted)
    ensures HeadersAlmostEqual(h1, wanted)
  {
    forall k | k in h1 && !AddedByLibrary(k) ensures h1[k] == HeaderAt(wanted, k) {
      assert Get(h1, k) == Get(h2, k);
    }
  }
}
