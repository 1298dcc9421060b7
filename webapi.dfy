/** `WebAPIWorkspaceManager`: the workspace manager that forwards every call to a web
    service. Two parts are modelled: how a JSON reply is turned into content or a
    `WorkspaceError`, and how the manager is configured from its service info. The
    transport is a parameter. */
module WebAPI {
  import opened Wrappers
  import opened WorkspaceErrors

  /** The `error` object of a reply: its `message` and `type` entries. */
  datatype ErrorDetails = ErrorDetails(message: Option<string>, typeName: Option<string>)

  /** A decoded JSON reply: its `status`, `error` and `content` entries. */
  datatype Reply<C> = Reply(status: Option<string>, error: Option<ErrorDetails>, content: Option<C>)

  /** What fetching a URL gives: a decoded reply, or an exception other than a
      `WorkspaceError` (a refused URL, a network error, a body that is not JSON). */
  datatype Transfer<C> = Received(reply: Reply<C>) | TransportFailure(reason: string)

  /** What `_fetch_json` ends with: the content, a raised `WorkspaceError`, or another
      exception passed through. */
  datatype FetchError = Raised(failure: Failure) | Transport(reason: string)

  /** Python's `a or b` on two optional strings: `a` unless it is `None` or empty. */
  function OrElse(a: Option<string>, b: Option<string>): (r: Option<string>)
    ensures r == a || r == b
    ensures a.Some? && a.value != "" ==> r == a
    ensures r.None? <==> (a.None? || a == Some("")) && b.None?
  {
    if a.Some? && a.value != "" then a else b
  }

  /** `error_type(message or type_name)`: a `WorkspaceError` whose cause is the message
      when there is a non-empty one, the type name otherwise, and nothing when neither
      is given. */
  function ErrorFailure(details: Option<ErrorDetails>): (f: Failure)
    ensures f.WorkspaceError?
  {
    var message := if details.Some? then details.value.message else None;
    var typeName := if details.Some? then details.value.typeName else None;
    match OrElse(message, typeName)
    case Some(text) => Raise(text)
    case None => WorkspaceError(NoCause)
  }

  /** The reply decision of `_fetch_json`. */
  function FetchJson<C>(t: Transfer<C>): (r: Result<Option<C>, FetchError>)
    ensures t.TransportFailure? ==> r == Err(Transport(t.reason))
    ensures r.Err? && r.error.Raised? ==> r.error.failure.WorkspaceError?
  {
    match t
    case TransportFailure(reason) => Err(Transport(reason))
    case Received(reply) =>
      if reply.status == Some("error") then Err(Raised(ErrorFailure(reply.error)))
      else Ok(reply.content)
  }

  /** A reply with status `error` raises a `WorkspaceError` that carries the message, or
      the type name when the message is missing or empty, or no cause when neither is
      given; any other reply gives its content. */
  lemma FetchJsonDecision<C>(reply: Reply<C>)
    ensures reply.status == Some("error") <==> FetchJson(Received(reply)).Err?
    ensures reply.status != Some("error") ==> FetchJson(Received(reply)) == Ok(reply.content)
    ensures reply.status == Some("error") && reply.error.Some? && reply.error.value.message.Some? &&
            reply.error.value.message.value != "" ==>
              FetchJson(Received(reply)) == Err(Raised(WorkspaceError(Text(reply.error.value.message.value))))
    ensures reply.status == Some("error") && reply.error.Some? &&
            (reply.error.value.message.None? || reply.error.value.message == Some("")) &&
            reply.error.value.typeName.Some? ==>
              FetchJson(Received(reply)) == Err(Raised(WorkspaceError(Text(reply.error.value.typeName.value))))
    ensures reply.status == Some("error") && reply.error.None? ==>
              FetchJson(Received(reply)) == Err(Raised(WorkspaceError(NoCause)))
    ensures reply.status == Some("error") && reply.error.Some? &&
            (reply.error.value.message.None? || reply.error.value.message == Some("")) &&
            reply.error.value.typeName.None? ==>
              FetchJson(Received(reply)) == Err(Raised(WorkspaceError(NoCause)))
  {
  }

  /** `is_running`'s decision: a reply or a `WorkspaceError` means the service answered;
      any other exception means it did not. */
  function Answered<C>(r: Result<Option<C>, FetchError>): (answered: bool)
    ensures answered <==> !(r.Err? && r.error.Transport?)
  {
    match r
    case Ok(_) => true
    case Err(Raised(_)) => true
    case Err(Transport(_)) => false
  }

  /** Whether `urllib` accepts the URL at all: it must start with a scheme, that is a
      non-empty run of characters other than `/` and `:`, followed by `:`. */
  predicate HasUrlType(url: string) {
    exists i :: 0 < i < |url| && url[i] == ':' && forall j :: 0 <= j < i ==> url[j] != '/' && url[j] != ':'
  }

  /** `urllib.request.urlopen(url)` followed by reading and decoding the reply: a URL
      without a scheme is refused before anything is sent; otherwise the outcome is
      what `transport` gives. */
  function Urlopen<C>(url: string, transport: string -> Transfer<C>): (t: Transfer<C>)
    ensures !HasUrlType(url) ==> t.TransportFailure?
    ensures HasUrlType(url) ==> t == transport(url)
  {
    if HasUrlType(url) then transport(url) else TransportFailure("unknown url type: '" + url + "'")
  }

  /** `is_running` as written: it fetches the bare path `/` rather than the service URL. */
  function IsRunningAsWritten<C>(transport: string -> Transfer<C>): bool {
    Answered(FetchJson(Urlopen("/", transport)))
  }

  /** `/` has no scheme, so `is_running` as written refuses the URL and reports that the
      service is not running, whatever the service would answer. */
  lemma IsRunningAsWrittenAlwaysFalse<C>(transport: string -> Transfer<C>)
    ensures !IsRunningAsWritten(transport)
  {
    assert !HasUrlType("/");
  }

  /** `is_running` as evidently intended: it fetches `base_url + '/'`. */
  function IsRunning<C>(baseUrl: string, transport: string -> Transfer<C>): (running: bool)
    ensures !HasUrlType(baseUrl + "/") ==> !running
  {
    Answered(FetchJson(Urlopen(baseUrl + "/", transport)))
  }

  lemma HttpUrlHasType(url: string)
    requires |url| >= 7 && url[..7] == "http://"
    ensures HasUrlType(url)
  {
    assert url[4] == ':';
    assert forall j :: 0 <= j < 4 ==> url[j] == "http"[j];
  }

  /** For a manager's URL, `is_running` is true exactly when the service answers with a
      reply or with a structured error, and false on any transport failure. */
  lemma IsRunningIff<C>(baseUrl: string, transport: string -> Transfer<C>)
    requires |baseUrl| >= 7 && baseUrl[..7] == "http://"
    ensures IsRunning(baseUrl, transport) <==> transport(baseUrl + "/").Received?
  {
    HttpUrlHasType(baseUrl + "/");
  }

  // ---------------------------------------------------------------------------
  // Configuration

  /** The service info the manager is built from: its `address` and `port` entries. */
  datatype ServiceInfo = ServiceInfo(address: Option<string>, port: Option<nat>)

  /** What `__init__` keeps: the service's base URL and the request timeout. */
  datatype Config = Config(baseUrl: string, timeout: nat)

  const DefaultAddress := "127.0.0.1"
  const MissingPort := "missing \"port\" number in service_info argument"

  function DigitChar(d: nat): (c: char)
    requires d < 10
    ensures '0' <= c <= '9'
  {
    "0123456789"[d]
  }

  /** Python's `'%s' % n` for a non-negative integer. */
  function Decimal(n: nat): (s: string)
    ensures |s| >= 1 && forall i :: 0 <= i < |s| ==> '0' <= s[i] <= '9'
    decreases n
  {
    if n < 10 then [DigitChar(n)] else Decimal(n / 10) + [DigitChar(n % 10)]
  }

  /** Reads a string of decimal digits back as a number. */
  function ParseDecimal(s: string): nat
    requires forall i :: 0 <= i < |s| ==> '0' <= s[i] <= '9'
    decreases |s|
  {
    if s == [] then 0 else ParseDecimal(s[..|s| - 1]) * 10 + (s[|s| - 1] as int - '0' as int)
  }

  /** The port written into the URL reads back as the same number. */
  lemma {:induction false} DecimalRoundTrip(n: nat)
    ensures ParseDecimal(Decimal(n)) == n
    decreases n
  {
    if n >= 10 {
      DecimalRoundTrip(n / 10);
      var s := Decimal(n);
      assert s[..|s| - 1] == Decimal(n / 10);
    }
  }

  /** `WebAPIWorkspaceManager(service_info, timeout)`: a missing or zero port is
      refused with a `ValueError`; a missing or empty address means `127.0.0.1`. */
  function NewManager(info: ServiceInfo, timeout: nat): (r: Result<Config, string>)
    ensures r.Ok? <==> info.port.Some? && info.port.value != 0
    ensures r.Err? ==> r.error == MissingPort
    ensures r.Ok? ==> r.value.timeout == timeout
  {
    if info.port.None? || info.port.value == 0 then Err(MissingPort)
    else
      var address := if info.address.Some? && info.address.value != "" then info.address.value else DefaultAddress;
      Ok(Config("http://" + address + ":" + Decimal(info.port.value), timeout))
  }

  /** The URL of a built manager is an `http` URL that names the given (or the default)
      address and ends in the port, which reads back as the given number. */
  lemma NewManagerUrl(info: ServiceInfo, timeout: nat)
    ensures var r := NewManager(info, timeout);
            r.Ok? ==>
              var url := r.value.baseUrl;
              var address := if info.address.Some? && info.address.value != "" then info.address.value else DefaultAddress;
              var port := Decimal(info.port.value);
              && |url| == 7 + |address| + 1 + |port|
              && url[..7] == "http://"
              && url[7..7 + |address|] == address
              && url[7 + |address|] == ':'
              && (forall i :: 8 + |address| <= i < |url| ==> '0' <= url[i] <= '9')
              && ParseDecimal(url[8 + |address|..]) == info.port.value
  {
    var r := NewManager(info, timeout);
    if r.Ok? {
      var address := if info.address.Some? && info.address.value != "" then info.address.value else DefaultAddress;
      var port := Decimal(info.port.value);
      var url := r.value.baseUrl;
      assert url == "http://" + address + ":" + port;
      assert url[8 + |address|..] == port;
      DecimalRoundTrip(info.port.value);
    }
  }

  /** A configured manager's `is_running`, as evidently intended, depends only on
      whether the service answers. */
  lemma ManagerIsRunning<C>(info: ServiceInfo, timeout: nat, transport: string -> Transfer<C>)
    requires NewManager(info, timeout).Ok?
    ensures IsRunning(NewManager(info, timeout).value.baseUrl, transport) <==>
            transport(NewManager(info, timeout).value.baseUrl + "/").Received?
  {
    NewManagerUrl(info, timeout);
    IsRunningIff(NewManager(info, timeout).value.baseUrl, transport);
  }
}
