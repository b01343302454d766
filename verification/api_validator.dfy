/**
 * The API validator script: it probes each store endpoint in a fixed order, records one
 * result per probe, stops after a failed login, and passes when every recorded result
 * succeeded. Also its two report helpers, endpoint truncation and HTML escaping.
 */
module ApiValidator {
  import opened Wrappers
  import opened Seqs

  // ---------------------------------------------------------------------------
  // truncateEndpoint.

  /**
   * `endpoint.substring(0, maxLength - 3) + '...'` when the endpoint is longer than
   * `maxLength`; `substring` clamps a negative end to 0.
   */
  function TruncateEndpoint(endpoint: string, maxLength: int): (r: string)
    ensures |endpoint| <= maxLength ==> r == endpoint
    ensures |endpoint| > maxLength ==> |r| >= 3 && r[|r| - 3..] == "..."
    ensures |endpoint| > maxLength ==> r[..|r| - 3] <= endpoint
    ensures |endpoint| > maxLength >= 3 ==> |r| == maxLength && r[..maxLength - 3] == endpoint[..maxLength - 3]
    ensures |endpoint| > maxLength && maxLength < 3 ==> r == "..."
  {
    if |endpoint| <= maxLength then endpoint
    else
      var keep := if maxLength - 3 < 0 then 0 else maxLength - 3;
      endpoint[..keep] + "..."
  }

  /** Truncation never yields something longer than `maxLength` (or the bare ellipsis). */
  lemma TruncateBound(endpoint: string, maxLength: int)
    ensures |TruncateEndpoint(endpoint, maxLength)| <= if maxLength < 3 then 3 else maxLength
  {
  }

  /** Truncating an already truncated endpoint again changes nothing. */
  lemma TruncateIdempotent(endpoint: string, maxLength: int)
    ensures TruncateEndpoint(TruncateEndpoint(endpoint, maxLength), maxLength) == TruncateEndpoint(endpoint, maxLength)
  {
  }

  // ---------------------------------------------------------------------------
  // escapeHtml.

  /** One of the five characters the escape rewrites. */
  predicate Special(c: char)
  {
    c == '&' || c == '<' || c == '>' || c == '"' || c == '\''
  }

  /** The replacement of one character. */
  function EscapeChar(c: char): (r: string)
    ensures Special(c) ==> |r| >= 4 && r[0] == '&' && r[|r| - 1] == ';'
    ensures !Special(c) ==> r == [c]
    ensures forall i :: 0 <= i < |r| ==> r[i] != '<' && r[i] != '>' && r[i] != '"' && r[i] != '\''
  {
    match c
    case '&' => "&amp;"
    case '<' => "&lt;"
    case '>' => "&gt;"
    case '"' => "&quot;"
    case '\'' => "&#039;"
    case _ => [c]
  }

  /** `text.replace(/[&<>"']/g, m => map[m])`. */
  function EscapeHtml(text: string): (r: string)
    ensures forall i :: 0 <= i < |r| ==> r[i] != '<' && r[i] != '>' && r[i] != '"' && r[i] != '\''
    ensures (forall i :: 0 <= i < |text| ==> !Special(text[i])) ==> r == text
    ensures |r| >= |text|
  {
    if text == [] then []
    else EscapeChar(text[0]) + EscapeHtml(text[1..])
  }

  /** Escaping works character by character: it distributes over concatenation. */
  lemma {:induction false} EscapeAppend(a: string, b: string)
    ensures EscapeHtml(a + b) == EscapeHtml(a) + EscapeHtml(b)
  {
    if a != [] {
      assert (a + b)[0] == a[0];
      assert (a + b)[1..] == a[1..] + b;
      EscapeAppend(a[1..], b);
    } else {
      assert a + b == b;
    }
  }

  /** Reads the five entities back to their characters; anything else is copied. */
  function UnescapeHtml(text: string): string
    decreases |text|
  {
    if text == [] then []
    else if |text| >= 5 && text[..5] == "&amp;" then "&" + UnescapeHtml(text[5..])
    else if |text| >= 4 && text[..4] == "&lt;" then "<" + UnescapeHtml(text[4..])
    else if |text| >= 4 && text[..4] == "&gt;" then ">" + UnescapeHtml(text[4..])
    else if |text| >= 6 && text[..6] == "&quot;" then "\"" + UnescapeHtml(text[6..])
    else if |text| >= 6 && text[..6] == "&#039;" then "'" + UnescapeHtml(text[6..])
    else [text[0]] + UnescapeHtml(text[1..])
  }

  // One lemma per entity: each unfolds the decoder once on that entity's prefix. A single
  // lemma over all five entities leaves the solver too many branches to rule out at once.

  lemma UnescapeAmp(rest: string)
    ensures UnescapeHtml("&amp;" + rest) == "&" + UnescapeHtml(rest)
  {
    var e := "&amp;" + rest;
    assert e[..5] == "&amp;" && e[5..] == rest;
  }

  lemma UnescapeLt(rest: string)
    ensures UnescapeHtml("&lt;" + rest) == "<" + UnescapeHtml(rest)
  {
    var e := "&lt;" + rest;
    assert e[1] == 'l';
    assert e[..4] == "&lt;" && e[4..] == rest;
  }

  lemma UnescapeGt(rest: string)
    ensures UnescapeHtml("&gt;" + rest) == ">" + UnescapeHtml(rest)
  {
    var e := "&gt;" + rest;
    assert e[1] == 'g';
    assert e[..4] == "&gt;" && e[4..] == rest;
  }

  lemma UnescapeQuot(rest: string)
    ensures UnescapeHtml("&quot;" + rest) == "\"" + UnescapeHtml(rest)
  {
    var e := "&quot;" + rest;
    assert e[1] == 'q';
    assert e[..6] == "&quot;" && e[6..] == rest;
  }

  lemma UnescapeApos(rest: string)
    ensures UnescapeHtml("&#039;" + rest) == "'" + UnescapeHtml(rest)
  {
    var e := "&#039;" + rest;
    assert e[1] == '#';
    assert e[..6] == "&#039;" && e[6..] == rest;
  }

  /** Unescaping one escaped character in front of anything recovers that character. */
  lemma UnescapeChar(c: char, rest: string)
    ensures UnescapeHtml(EscapeChar(c) + rest) == [c] + UnescapeHtml(rest)
  {
    match c
    case '&' => UnescapeAmp(rest);
    case '<' => UnescapeLt(rest);
    case '>' => UnescapeGt(rest);
    case '"' => UnescapeQuot(rest);
    case '\'' => UnescapeApos(rest);
    case _ =>
      var e := [c] + rest;
      assert e[0] == c && e[1..] == rest;
  }

  /** Escaping loses nothing: unescaping its output gives the input back. */
  lemma {:induction false} EscapeRoundTrip(text: string)
    ensures UnescapeHtml(EscapeHtml(text)) == text
  {
    if text != [] {
      EscapeRoundTrip(text[1..]);
      UnescapeChar(text[0], EscapeHtml(text[1..]));
      assert [text[0]] + text[1..] == text;
    }
  }

  // ---------------------------------------------------------------------------
  // testEndpoint.

  /** The probes `validate` runs, in the order it runs them. */
  datatype Probe =
    | Login
    | SearchProducts
    | GetCart
    | DeliveryInfo
    | UpcomingOrders
    | Announcements
    | ReusableBags
    | PremiumProfile
    | OrderHistory
    | DeliverySlots(userId: int, addressId: int)
    | Logout
  {
    /** The HTTP method the probe uses. */
    function Method(): string
    {
      if Login? || Logout? then "POST" else "GET"
    }
  }

  /**
   * What one request did: an HTTP answer (with the body's `status` and, for the login
   * body, `data.user.id` and `data.address.id`), or a throw before any answer.
   */
  datatype Exchange =
    | Answered(httpStatus: int, status: Option<int>, duration: nat, userId: Option<int>, addressId: Option<int>)
    | RequestThrew(message: string)

  /** Why a test failed: a non-2xx status, or the thrown error's message. */
  datatype Failure = HttpFailure(httpStatus: int) | Thrown(message: string)

  /** One recorded `TestResult`. */
  datatype TestResult = TestResult(
    probe: Probe,
    success: bool,
    httpStatus: Option<int>,
    status: Option<int>,
    error: Option<Failure>,
    duration: nat)

  /** Whether an HTTP status is in the 2xx range. */
  predicate Is2xx(httpStatus: int)
  {
    200 <= httpStatus < 300
  }

  /** `testEndpoint(name, endpoint, method, body)` given what the request did. */
  function TestEndpoint(probe: Probe, exchange: Exchange): (r: TestResult)
    ensures r.probe == probe
    ensures r.success <==> exchange.Answered? && Is2xx(exchange.httpStatus)
    ensures r.success <==> r.error.None?
    ensures exchange.Answered? ==> r.httpStatus == Some(exchange.httpStatus) && r.duration == exchange.duration
    ensures exchange.Answered? && !r.success ==> r.error == Some(HttpFailure(exchange.httpStatus))
    ensures exchange.RequestThrew? ==> r.duration == 0 && r.error == Some(Thrown(exchange.message)) && r.httpStatus.None?
  {
    match exchange
    case Answered(http, status, duration, _, _) =>
      var success := 200 <= http < 300;
      TestResult(probe, success, Some(http), status, if success then None else Some(HttpFailure(http)), duration)
    case RequestThrew(message) =>
      TestResult(probe, false, None, None, Some(Thrown(message)), 0)
  }

  // ---------------------------------------------------------------------------
  // validate.

  /** A JavaScript truthiness test on an optional id: present and non-zero. */
  predicate TruthyId(id: Option<int>)
  {
    id.Some? && id.value != 0
  }

  /** The eight probes that always follow a successful login, in the script's order. */
  const FixedProbes: seq<Probe> := [SearchProducts, GetCart, DeliveryInfo, UpcomingOrders,
                                    Announcements, ReusableBags, PremiumProfile, OrderHistory]

  /** The delivery-slot probe, made only when both ids from the login body are truthy. */
  function SlotProbes(userId: Option<int>, addressId: Option<int>): (r: seq<Probe>)
    ensures |r| <= 1
    ensures r != [] <==> TruthyId(userId) && TruthyId(addressId)
    ensures r != [] ==> r[0] == DeliverySlots(userId.value, addressId.value)
  {
    if TruthyId(userId) && TruthyId(addressId) then [DeliverySlots(userId.value, addressId.value)] else []
  }

  /** The probes after a successful login, given the ids read from the login body. */
  function Plan(userId: Option<int>, addressId: Option<int>): (plan: seq<Probe>)
    ensures |plan| == if TruthyId(userId) && TruthyId(addressId) then 10 else 9
    ensures plan[..8] == [SearchProducts, GetCart, DeliveryInfo, UpcomingOrders,
                          Announcements, ReusableBags, PremiumProfile, OrderHistory]
    ensures plan[|plan| - 1] == Logout
    ensures TruthyId(userId) && TruthyId(addressId) ==> plan[8] == DeliverySlots(userId.value, addressId.value)
    ensures (exists i :: 0 <= i < |plan| && plan[i].DeliverySlots?) <==> TruthyId(userId) && TruthyId(addressId)
  {
    var plan := FixedProbes + SlotProbes(userId, addressId) + [Logout];
    assert TruthyId(userId) && TruthyId(addressId) ==> plan[8].DeliverySlots?;
    plan
  }

  /** Runs the probes in order, one result each. */
  function RunAll(plan: seq<Probe>, net: Probe -> Exchange): (results: seq<TestResult>)
    ensures |results| == |plan|
    ensures forall i :: 0 <= i < |plan| ==> results[i] == TestEndpoint(plan[i], net(plan[i]))
  {
    if plan == [] then [] else [TestEndpoint(plan[0], net(plan[0]))] + RunAll(plan[1..], net)
  }

  /** Every recorded result succeeded. */
  predicate AllSucceeded(results: seq<TestResult>)
  {
    forall i :: 0 <= i < |results| ==> results[i].success
  }

  /** The verdict of a run and the results it recorded. */
  datatype Validation = Validation(passed: bool, results: seq<TestResult>)

  /** `validate()`, with the network as a function from probe to exchange. */
  function Validate(net: Probe -> Exchange): (v: Validation)
    ensures |v.results| >= 1 && v.results[0] == TestEndpoint(Login, net(Login))
    ensures !v.results[0].success ==> v == Validation(false, [v.results[0]])
    ensures v.results[0].success ==> v.results[|v.results| - 1].probe == Logout
    ensures v.passed <==> AllSucceeded(v.results)
    ensures forall i :: 0 <= i < |v.results| ==> v.results[i] == TestEndpoint(v.results[i].probe, net(v.results[i].probe))
  {
    var login := TestEndpoint(Login, net(Login));
    if !login.success then Validation(false, [login])
    else
      var answer := net(Login);
      var results := [login] + RunAll(Plan(answer.userId, answer.addressId), net);
      Validation(AllSucceeded(results), results)
  }

  /** A failed login ends the run: no other endpoint is probed and the verdict is false. */
  lemma FailedLoginStops(net: Probe -> Exchange)
    requires !(net(Login).Answered? && Is2xx(net(Login).httpStatus))
    ensures !Validate(net).passed
    ensures |Validate(net).results| == 1
  {
  }

  /** The probes a run recorded, in order. */
  function ProbesOf(results: seq<TestResult>): (probes: seq<Probe>)
    ensures |probes| == |results|
    ensures forall i :: 0 <= i < |results| ==> probes[i] == results[i].probe
  {
    seq(|results|, i requires 0 <= i < |results| => results[i].probe)
  }

  /**
   * After a successful login every probe runs in order: the eight fixed probes, the
   * delivery slots exactly when the login body named a truthy user id and address id,
   * and logout last.
   */
  lemma SuccessfulLoginRunsEverything(net: Probe -> Exchange)
    requires net(Login).Answered? && Is2xx(net(Login).httpStatus)
    ensures ProbesOf(Validate(net).results)
      == [Login] + FixedProbes + SlotProbes(net(Login).userId, net(Login).addressId) + [Logout]
  {
    var answer := net(Login);
    var plan := Plan(answer.userId, answer.addressId);
    assert Validate(net).results == [TestEndpoint(Login, net(Login))] + RunAll(plan, net);
    ProbesCons(TestEndpoint(Login, net(Login)), RunAll(plan, net));
    RunAllProbes(plan, net);
    var slots := SlotProbes(answer.userId, answer.addressId);
    assert plan == FixedProbes + slots + [Logout];
    AppendAssociative([Login], FixedProbes + slots, [Logout]);
    AppendAssociative([Login], FixedProbes, slots);
  }

  /** Recording one more result in front records its probe in front. */
  lemma ProbesCons(r: TestResult, rest: seq<TestResult>)
    ensures ProbesOf([r] + rest) == [r.probe] + ProbesOf(rest)
  {
    assert forall i :: 0 < i <= |rest| ==> ([r] + rest)[i] == rest[i - 1];
  }

  /** Running a plan records exactly the plan's probes. */
  lemma RunAllProbes(plan: seq<Probe>, net: Probe -> Exchange)
    ensures ProbesOf(RunAll(plan, net)) == plan
  {
  }

  /** The run passes exactly when every request it made answered with a 2xx status. */
  lemma PassIffAll2xx(net: Probe -> Exchange)
    ensures Validate(net).passed <==>
      forall i :: 0 <= i < |Validate(net).results| ==>
        var p := Validate(net).results[i].probe; net(p).Answered? && Is2xx(net(p).httpStatus)
  {
  }
}
