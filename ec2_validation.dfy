/**
 * The acceptance checks XdEc2Validation makes against a running cluster:
 * send counts read over Jolokia, the Jolokia request strings, the container
 * probe loop and the admin connection rule. HTTP calls, JSON decoding and
 * Integer.parseInt are given as function parameters (their outcomes), so the
 * checks themselves are what is modelled.
 */
module Ec2Validation {
  import opened Wrappers
  import opened JavaText
  import opened JmxResult

  /** What makes a check fail: a failed JUnit assertion, or an exception
      that propagates out of the check. */
  datatype ValidationError =
    | NullChannel
    | NotANumber(text: Option<string>)
    | CountMismatch(expected: int, actual: int)
    | CountBelow(expected: int, actual: int)
    | ErrorsReported(count: int)
    | EmptyArgument
    | FetchFailed
    | NoContainerAvailable
    | ProbeRaised
    | AdminUnavailable
    | AdminRaised

  /** Integer.parseInt: the value of a numeric string, None where it raises
      NumberFormatException. */
  type ParseInt = string -> Option<int>

  /** Only the "output" and "input" channels of a module are checked. */
  predicate IsCheckedChannel(channel: string) {
    channel == "output" || channel == "input"
  }

  /** Integer.parseInt of a property; a null property does not parse. */
  function ParseProperty(m: Values, f: Field, parseInt: ParseInt): Option<int>
  {
    if f in m then parseInt(m[f]) else None
  }

  /** The property's text, as the failure reports it. */
  function PropertyText(m: Values, f: Field): Option<string>
  {
    if f in m then Some(m[f]) else None
  }

  /** The send count meets the expectation: exactly, or at least. */
  predicate CountMeets(sent: int, expected: int, atLeast: bool) {
    if atLeast then sent >= expected else sent == expected
  }

  /** One iteration of verifySendCounts: skip a channel other than output or
      input; else parse the send count and compare it (assertThat
      greaterThanOrEqualTo, or assertEquals), then parse the error count and
      fail when it is positive. A null channel raises at equals. */
  function CheckModule(m: Values, expected: int, atLeast: bool, parseInt: ParseInt): Outcome<ValidationError>
  {
    if ModuleChannel !in m then Fail(NullChannel)
    else if !IsCheckedChannel(m[ModuleChannel]) then Pass
    else
      match ParseProperty(m, SendCount, parseInt)
      case None => Fail(NotANumber(PropertyText(m, SendCount)))
      case Some(sent) =>
        if !CountMeets(sent, expected, atLeast) then
          (if atLeast then Fail(CountBelow(expected, sent)) else Fail(CountMismatch(expected, sent)))
        else
          match ParseProperty(m, SendErrorCount, parseInt)
          case None => Fail(NotANumber(PropertyText(m, SendErrorCount)))
          case Some(errors) => if errors > 0 then Fail(ErrorsReported(errors)) else Pass
  }

  /** What a module must satisfy to pass: a channel, and for output and input
      channels a send count meeting the expectation and no errors. */
  predicate ModuleConforms(m: Values, expected: int, atLeast: bool, parseInt: ParseInt) {
    ModuleChannel in m
    && (IsCheckedChannel(m[ModuleChannel]) ==>
          ParseProperty(m, SendCount, parseInt).Some?
          && CountMeets(ParseProperty(m, SendCount, parseInt).value, expected, atLeast)
          && ParseProperty(m, SendErrorCount, parseInt).Some?
          && ParseProperty(m, SendErrorCount, parseInt).value <= 0)
  }

  /** A module check passes exactly when the module conforms. */
  lemma CheckModulePassIff(m: Values, expected: int, atLeast: bool, parseInt: ParseInt)
    ensures CheckModule(m, expected, atLeast, parseInt).Pass? <==> ModuleConforms(m, expected, atLeast, parseInt)
  {
  }

  /** The outcome of verifySendCounts over the modules in list order: the
      first failing module ends it. */
  function SendCountsVerdict(modules: seq<Values>, expected: int, atLeast: bool, parseInt: ParseInt): Outcome<ValidationError>
    decreases |modules|
  {
    if modules == [] then Pass
    else
      var first := CheckModule(modules[0], expected, atLeast, parseInt);
      if first.Fail? then first else SendCountsVerdict(modules[1..], expected, atLeast, parseInt)
  }

  /** The verdict passes exactly when every module conforms, and a failure is
      the failure of the first module that does not. */
  lemma {:induction false} SendCountsVerdictIsFirstFailure(modules: seq<Values>, expected: int, atLeast: bool, parseInt: ParseInt)
    ensures SendCountsVerdict(modules, expected, atLeast, parseInt).Pass? <==>
      forall i :: 0 <= i < |modules| ==> ModuleConforms(modules[i], expected, atLeast, parseInt)
    ensures SendCountsVerdict(modules, expected, atLeast, parseInt).Fail? ==>
      exists i :: 0 <= i < |modules|
        && !ModuleConforms(modules[i], expected, atLeast, parseInt)
        && (forall j :: 0 <= j < i ==> ModuleConforms(modules[j], expected, atLeast, parseInt))
        && SendCountsVerdict(modules, expected, atLeast, parseInt) == CheckModule(modules[i], expected, atLeast, parseInt)
    decreases |modules|
  {
    if modules != [] {
      var rest := modules[1..];
      SendCountsVerdictIsFirstFailure(rest, expected, atLeast, parseInt);
      CheckModulePassIff(modules[0], expected, atLeast, parseInt);
      assert forall j :: 0 < j < |modules| ==> modules[j] == rest[j - 1];
      if CheckModule(modules[0], expected, atLeast, parseInt).Pass?
        && SendCountsVerdict(rest, expected, atLeast, parseInt).Fail?
      {
        var i :| 0 <= i < |rest|
          && !ModuleConforms(rest[i], expected, atLeast, parseInt)
          && (forall j :: 0 <= j < i ==> ModuleConforms(rest[j], expected, atLeast, parseInt))
          && SendCountsVerdict(rest, expected, atLeast, parseInt) == CheckModule(rest[i], expected, atLeast, parseInt);
        assert modules[i + 1] == rest[i];
      }
      forall i | 0 <= i < |modules| && !ModuleConforms(modules[i], expected, atLeast, parseInt)
        ensures SendCountsVerdict(modules, expected, atLeast, parseInt).Fail?
      {
        if i > 0 {
          assert !ModuleConforms(rest[i - 1], expected, atLeast, parseInt);
        }
      }
    }
  }

  /** A module on a channel other than output or input never affects the
      verdict, whatever its counts. */
  lemma {:induction false} OtherChannelsAreSkipped(before: seq<Values>, m: Values, after: seq<Values>, expected: int, atLeast: bool, parseInt: ParseInt)
    requires ModuleChannel in m && !IsCheckedChannel(m[ModuleChannel])
    ensures SendCountsVerdict(before + [m] + after, expected, atLeast, parseInt)
         == SendCountsVerdict(before + after, expected, atLeast, parseInt)
    decreases |before|
  {
    if before == [] {
      assert before + [m] + after == [m] + after;
      assert ([m] + after)[1..] == after;
      assert before + after == after;
    } else {
      OtherChannelsAreSkipped(before[1..], m, after, expected, atLeast, parseInt);
      assert (before + [m] + after)[1..] == before[1..] + [m] + after;
      assert (before + after)[1..] == before[1..] + after;
    }
  }

  /** Whatever passes the exact check passes the at-least check. */
  lemma ExactPassImpliesAtLeastPass(modules: seq<Values>, expected: int, parseInt: ParseInt)
    requires SendCountsVerdict(modules, expected, false, parseInt).Pass?
    ensures SendCountsVerdict(modules, expected, true, parseInt).Pass?
  {
    SendCountsVerdictIsFirstFailure(modules, expected, false, parseInt);
    SendCountsVerdictIsFirstFailure(modules, expected, true, parseInt);
  }

  /** An at-least check that passes also passes for any smaller expectation. */
  lemma AtLeastIsMonotone(modules: seq<Values>, expected: int, lower: int, parseInt: ParseInt)
    requires lower <= expected && SendCountsVerdict(modules, expected, true, parseInt).Pass?
    ensures SendCountsVerdict(modules, lower, true, parseInt).Pass?
  {
    SendCountsVerdictIsFirstFailure(modules, expected, true, parseInt);
    SendCountsVerdictIsFirstFailure(modules, lower, true, parseInt);
  }

  /** A checked module reporting send errors fails the check in both modes,
      even with the expected count. */
  lemma SendErrorsFail(modules: seq<Values>, i: int, expected: int, atLeast: bool, parseInt: ParseInt)
    requires 0 <= i < |modules| && ModuleChannel in modules[i] && IsCheckedChannel(modules[i][ModuleChannel])
    requires ParseProperty(modules[i], SendErrorCount, parseInt).Some?
    requires ParseProperty(modules[i], SendErrorCount, parseInt).value > 0
    ensures SendCountsVerdict(modules, expected, atLeast, parseInt).Fail?
  {
    SendCountsVerdictIsFirstFailure(modules, expected, atLeast, parseInt);
  }

  /** verifySendCounts(modules, msgCountExpected, greaterThanOrEqualTo). */
  method VerifySendCounts(modules: seq<Values>, expected: int, atLeast: bool, parseInt: ParseInt) returns (r: Outcome<ValidationError>)
    ensures r == SendCountsVerdict(modules, expected, atLeast, parseInt)
  {
    var i := 0;
    while i < |modules|
      invariant 0 <= i <= |modules|
      invariant SendCountsVerdict(modules[i..], expected, atLeast, parseInt) == SendCountsVerdict(modules, expected, atLeast, parseInt)
    {
      var m := modules[i];
      assert modules[i..][1..] == modules[i + 1..];
      if ModuleChannel !in m {
        return Fail(NullChannel);
      }
      if IsCheckedChannel(m[ModuleChannel]) {
        var sent := ParseProperty(m, SendCount, parseInt);
        if sent.None? {
          return Fail(NotANumber(PropertyText(m, SendCount)));
        }
        if atLeast {
          if sent.value < expected {
            return Fail(CountBelow(expected, sent.value));
          }
        } else if sent.value != expected {
          return Fail(CountMismatch(expected, sent.value));
        }
        var errors := ParseProperty(m, SendErrorCount, parseInt);
        if errors.None? {
          return Fail(NotANumber(PropertyText(m, SendErrorCount)));
        }
        if errors.value > 0 {
          return Fail(ErrorsReported(errors.value));
        }
      }
      i := i + 1;
    }
    r := Pass;
  }

  /** verifySendCounts(modules, msgCountExpected): the exact mode. */
  method VerifySendCountsExact(modules: seq<Values>, expected: int, parseInt: ParseInt) returns (r: Outcome<ValidationError>)
    ensures r.Pass? <==> forall i :: 0 <= i < |modules| ==> ModuleConforms(modules[i], expected, false, parseInt)
    ensures r == SendCountsVerdict(modules, expected, false, parseInt)
  {
    r := VerifySendCounts(modules, expected, false, parseInt);
    SendCountsVerdictIsFirstFailure(modules, expected, false, parseInt);
  }

  /** buildJMXRequest(url, streamName, moduleName). */
  function BuildJmxRequest(url: string, streamName: string, moduleName: string): string
  {
    url + "/management/jolokia/read/xd." + streamName + ":module=" + moduleName + ",component=MessageChannel,name=*"
  }

  /** buildJMXList(url). */
  function BuildJmxList(url: string): string
  {
    url + "/management/jolokia/list"
  }

  /** Removing a common prefix keeps equality of the rest. */
  lemma CancelPrefix(p: string, a: string, b: string)
    requires p + a == p + b
    ensures a == b
  {
    assert a == (p + a)[|p|..];
    assert b == (p + b)[|p|..];
  }

  /** Removing a common suffix keeps equality of the rest. */
  lemma CancelSuffix(a: string, b: string, q: string)
    requires a + q == b + q
    ensures a == b
  {
    assert a == (a + q)[..|a|];
    assert b == (b + q)[..|b|];
  }

  /** In s + t where t starts with ':' and s has none, the first ':' is at |s|. */
  lemma FirstColon(s: string, t: string)
    requires ':' !in s && t != [] && t[0] == ':'
    ensures forall k :: 0 <= k < |s| ==> (s + t)[k] != ':'
    ensures (s + t)[|s|] == ':'
  {
  }

  /** Where s has no ':' and t starts with one, s + t splits only one way. */
  lemma SplitAtColon(s1: string, t1: string, s2: string, t2: string)
    requires ':' !in s1 && ':' !in s2
    requires t1 != [] && t1[0] == ':' && t2 != [] && t2[0] == ':'
    requires s1 + t1 == s2 + t2
    ensures s1 == s2 && t1 == t2
  {
    FirstColon(s1, t1);
    FirstColon(s2, t2);
    assert |s1| == |s2|;
    assert s1 == (s1 + t1)[..|s1|];
    assert s2 == (s2 + t2)[..|s2|];
    CancelPrefix(s1, t1, t2);
  }

  /** head + s + mid + m + tail determines s and m when s has no ':' and mid
      starts with one. */
  lemma {:induction false} FramedPairInjective(head: string, mid: string, tail: string, s1: string, m1: string, s2: string, m2: string)
    requires ':' !in s1 && ':' !in s2 && mid != [] && mid[0] == ':'
    requires head + s1 + mid + m1 + tail == head + s2 + mid + m2 + tail
    ensures s1 == s2 && m1 == m2
  {
    assert head + s1 + mid + m1 + tail == head + (s1 + (mid + (m1 + tail)));
    assert head + s2 + mid + m2 + tail == head + (s2 + (mid + (m2 + tail)));
    CancelPrefix(head, s1 + (mid + (m1 + tail)), s2 + (mid + (m2 + tail)));
    SplitAtColon(s1, mid + (m1 + tail), s2, mid + (m2 + tail));
    CancelPrefix(mid, m1 + tail, m2 + tail);
    CancelSuffix(m1, m2, tail);
  }

  /** The read request for a stream whose name has no ':' names its stream and
      module: two requests to one server agree only when both do. */
  lemma JmxRequestIdentifiesTarget(url: string, s1: string, m1: string, s2: string, m2: string)
    requires ':' !in s1 && ':' !in s2
    requires BuildJmxRequest(url, s1, m1) == BuildJmxRequest(url, s2, m2)
    ensures s1 == s2 && m1 == m2
  {
    FramedPairInjective(url + "/management/jolokia/read/xd.", ":module=", ",component=MessageChannel,name=*", s1, m1, s2, m2);
  }

  /** Three pieces joined by a delimiter. */
  lemma JoinThree(a: string, b: string, c: string, d: char)
    ensures Join([a, b, c], d) == a + [d] + b + [d] + c
  {
    assert [a, b, c][1..] == [b, c];
    assert [b, c][1..] == [c];
    assert Join([b, c], d) == b + [d] + c;
  }

  /** The fields of a key "first,k1=v1,k2=v2". */
  lemma FieldsOfThree(first: string, k1: string, v1: string, k2: string, v2: string)
    ensures Fields([first, k1 + "=" + v1, k2 + "=" + v2] + []) == first + ("," + k1 + "=") + v1 + ("," + k2 + "=") + v2
  {
    var parts := [first, k1 + "=" + v1, k2 + "=" + v2];
    assert parts + [] == parts;
    JoinThree(parts[0], parts[1], parts[2], ',');
  }

  /** A key "first,k1=v1,k2=v2" parses to the name v1 and the channel v2. */
  lemma TwoPropertyKey(first: string, k1: string, v1: string, k2: string, v2: string)
    requires ',' !in first && IsWord(k1) && IsWord(v1) && IsWord(k2) && IsWord(v2)
    ensures ParseModuleKey(first + ("," + k1 + "=") + v1 + ("," + k2 + "=") + v2) == Success(ModuleKey(v1, v2))
  {
    ParseModuleKeyOfObjectName(first, k1, v1, k2, v2, []);
    FieldsOfThree(first, k1, v1, k2, v2);
  }

  /** Jolokia names each channel MBean of a stream by its canonical object
      name, properties in lexical order (component, module, name); for such a
      key, the module name and channel come out as read. */
  lemma ChannelKeyParses(streamName: string, moduleName: string, channel: string)
    requires ',' !in streamName && IsWord(moduleName) && IsWord(channel)
    ensures ParseModuleKey("xd." + streamName + ":component=MessageChannel" + ",module=" + moduleName + ",name=" + channel)
         == Success(ModuleKey(moduleName, channel))
  {
    var first := "xd." + streamName + ":component=MessageChannel";
    assert ',' !in first;
    assert IsWord("module") && IsWord("name");
    assert "," + "module" + "=" == ",module=";
    assert "," + "name" + "=" == ",name=";
    TwoPropertyKey(first, "module", moduleName, "name", channel);
  }

  /** The module list a read request returns: StreamUtils.httpGet followed by
      getModuleList's JSON decoding, None when either raises IOException. */
  type FetchModules = string -> Option<seq<Values>>

  /** assertReceived(url, streamName, moduleName, msgCountExpected): both
      names must have text; an IOException becomes IllegalStateException. */
  function AssertReceived(url: string, streamName: string, moduleName: string, expected: int,
                          fetch: FetchModules, parseInt: ParseInt): (r: Outcome<ValidationError>)
    ensures !HasText(moduleName) || !HasText(streamName) ==> r == Fail(EmptyArgument)
    ensures HasText(moduleName) && HasText(streamName) && fetch(BuildJmxRequest(url, streamName, moduleName)).None? ==>
      r == Fail(FetchFailed)
    ensures HasText(moduleName) && HasText(streamName) && fetch(BuildJmxRequest(url, streamName, moduleName)).Some? ==>
      r == SendCountsVerdict(fetch(BuildJmxRequest(url, streamName, moduleName)).value, expected, false, parseInt)
    ensures r.Pass? ==>
      HasText(moduleName) && HasText(streamName)
      && fetch(BuildJmxRequest(url, streamName, moduleName)).Some?
      && forall i :: 0 <= i < |fetch(BuildJmxRequest(url, streamName, moduleName)).value| ==>
           ModuleConforms(fetch(BuildJmxRequest(url, streamName, moduleName)).value[i], expected, false, parseInt)
  {
    if !HasText(moduleName) || !HasText(streamName) then Fail(EmptyArgument)
    else
      var fetched := fetch(BuildJmxRequest(url, streamName, moduleName));
      if fetched.None? then Fail(FetchFailed)
      else
        SendCountsVerdictIsFirstFailure(fetched.value, expected, false, parseInt);
        SendCountsVerdict(fetched.value, expected, false, parseInt)
  }

  /** assertReceived(url, streamName, msgCountExpected): every module of the
      stream, read with the wildcard module name. */
  function AssertReceivedStream(url: string, streamName: string, expected: int,
                                fetch: FetchModules, parseInt: ParseInt): (r: Outcome<ValidationError>)
    ensures !HasText(streamName) ==> r == Fail(EmptyArgument)
    ensures HasText(streamName) && fetch(BuildJmxRequest(url, streamName, "*")).None? ==> r == Fail(FetchFailed)
    ensures HasText(streamName) && fetch(BuildJmxRequest(url, streamName, "*")).Some? ==>
      r == SendCountsVerdict(fetch(BuildJmxRequest(url, streamName, "*")).value, expected, false, parseInt)
  {
    if !HasText(streamName) then Fail(EmptyArgument)
    else
      var fetched := fetch(BuildJmxRequest(url, streamName, "*"));
      if fetched.None? then Fail(FetchFailed)
      else SendCountsVerdict(fetched.value, expected, false, parseInt)
  }

  /** The stream-wide check is the per-module check for module "*". */
  lemma StreamCheckIsWildcardCheck(url: string, streamName: string, expected: int, fetch: FetchModules, parseInt: ParseInt)
    ensures AssertReceivedStream(url, streamName, expected, fetch, parseInt)
         == AssertReceived(url, streamName, "*", expected, fetch, parseInt)
  {
    assert HasText("*") by { assert !IsWhitespace("*"[0]); }
  }

  /** How one container probe ends: the GET of its Jolokia list answered,
      or raised one of the exceptions the loop tells apart. */
  datatype ProbeOutcome = Responded | ResourceAccessFailure | HttpClientError | IoFailure | OtherFailure

  /** A probe that shows the container is up: any answer, even an HTTP
      client error. */
  predicate Reached(o: ProbeOutcome) {
    o.Responded? || o.HttpClientError?
  }

  /** The requests the probe loop issues, one per container in order. */
  function ProbeRequests(containers: seq<string>, jmxPort: int, replacePort: (string, int) -> string): seq<string>
  {
    seq(|containers|, i requires 0 <= i < |containers| => BuildJmxList(replacePort(containers[i], jmxPort)))
  }

  /** The outcome of verifyAtLeastOneContainerAvailable given the probe
      outcomes: an exception the loop does not catch propagates; else the
      check passes iff some container was reached. */
  function Availability(outcomes: seq<ProbeOutcome>): (r: Outcome<ValidationError>)
    ensures r == Fail(ProbeRaised) <==> OtherFailure in outcomes
    ensures r.Pass? <==>
      OtherFailure !in outcomes && exists i :: 0 <= i < |outcomes| && Reached(outcomes[i])
    ensures r.Pass? || r == Fail(ProbeRaised) || r == Fail(NoContainerAvailable)
  {
    if OtherFailure in outcomes then Fail(ProbeRaised)
    else if Responded in outcomes || HttpClientError in outcomes then Pass
    else Fail(NoContainerAvailable)
  }

  /** The verdict depends only on which outcomes occurred, not on their
      order or on how often. */
  lemma AvailabilityIgnoresOrder(a: seq<ProbeOutcome>, b: seq<ProbeOutcome>)
    requires forall o :: o in a <==> o in b
    ensures Availability(a) == Availability(b)
  {
  }

  /** One reached container suffices, however many others are down, as long
      as no probe raised something the loop does not catch. */
  lemma OneReachedSuffices(outcomes: seq<ProbeOutcome>, i: int)
    requires 0 <= i < |outcomes| && Reached(outcomes[i])
    requires forall j :: 0 <= j < |outcomes| ==> !outcomes[j].OtherFailure?
    ensures Availability(outcomes) == Pass
  {
  }

  /** Resource-access and IO failures count for nothing. */
  lemma FailedProbesDoNotCount(outcomes: seq<ProbeOutcome>)
    requires forall j :: 0 <= j < |outcomes| ==> outcomes[j].ResourceAccessFailure? || outcomes[j].IoFailure?
    ensures Availability(outcomes) == Fail(NoContainerAvailable)
  {
  }

  /** verifyAtLeastOneContainerAvailable(containers, jmxPort): probe every
      container's Jolokia list on the JMX port, remembering whether any
      answered. `probed` lists the requests issued. */
  method VerifyAtLeastOneContainerAvailable(containers: seq<string>, jmxPort: int,
                                            replacePort: (string, int) -> string, probe: string -> ProbeOutcome)
    returns (r: Outcome<ValidationError>, probed: seq<string>)
    ensures var requests := ProbeRequests(containers, jmxPort, replacePort);
      r == Availability(seq(|requests|, i requires 0 <= i < |requests| => probe(requests[i])))
    ensures var requests := ProbeRequests(containers, jmxPort, replacePort);
      r != Fail(ProbeRaised) ==> probed == requests
    ensures |probed| <= |containers| && probed == ProbeRequests(containers, jmxPort, replacePort)[..|probed|]
  {
    var requests := ProbeRequests(containers, jmxPort, replacePort);
    ghost var outcomes := seq(|requests|, i requires 0 <= i < |requests| => probe(requests[i]));
    var result := false;
    probed := [];
    var i := 0;
    while i < |containers|
      invariant 0 <= i <= |containers|
      invariant probed == requests[..i]
      invariant result <==> exists k :: 0 <= k < i && Reached(outcomes[k])
      invariant forall k :: 0 <= k < i ==> !outcomes[k].OtherFailure?
    {
      var request := BuildJmxList(replacePort(containers[i], jmxPort));
      probed := probed + [request];
      assert requests[..i + 1] == requests[..i] + [request];
      var outcome := probe(request);
      assert outcome == outcomes[i];
      match outcome {
        case Responded => result := true;
        case HttpClientError => result := true;
        case ResourceAccessFailure =>
        case IoFailure =>
        case OtherFailure =>
          r := Fail(ProbeRaised);
          return;
      }
      i := i + 1;
    }
    assert requests[..i] == requests;
    r := if result then Pass else Fail(NoContainerAvailable);
  }

  /** How the admin GET (RestTemplate.getForObject) ends. */
  datatype RestOutcome = Returned | ResourceAccess | OtherRestFailure

  /** verifyAdminConnection: true when the GET returns, false on a
      resource-access failure; any other exception propagates. */
  function AdminConnection(o: RestOutcome): (r: Result<bool, ValidationError>)
    ensures r.Success? <==> !o.OtherRestFailure?
    ensures r.Success? ==> (r.value <==> o.Returned?)
  {
    match o
    case Returned => Success(true)
    case ResourceAccess => Success(false)
    case OtherRestFailure => Failure(AdminRaised)
  }

  /** verifyXDAdminReady: assert the connection result. The check passes
      only when the GET returned, and reports the admin unavailable only on
      a resource-access failure. */
  function VerifyXdAdminReady(o: RestOutcome): (r: Outcome<ValidationError>)
    ensures r.Pass? <==> o == Returned
    ensures r == Fail(AdminUnavailable) <==> o == ResourceAccess
  {
    match AdminConnection(o)
    case Success(up) => if up then Pass else Fail(AdminUnavailable)
    case Failure(e) => Fail(e)
  }

  /** The admin is reported down only on a resource-access failure and up
      only when the GET returned; every other failure propagates. */
  lemma AdminConnectionRule(o: RestOutcome)
    ensures AdminConnection(o) == Success(false) <==> o == ResourceAccess
    ensures AdminConnection(o) == Success(true) <==> o == Returned
    ensures AdminConnection(o).Failure? <==> o == OtherRestFailure
  {
  }
}
