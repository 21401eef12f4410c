/**
 * VaCreatorApplication's own methods, written step by step as the source writes them: the
 * range loop, the StringBuilder loop, the loop over the split parts and the dispatch loop.
 * Each is proved to compute what the functions of Grammar and Requests describe.
 */
module Application {
  import opened Wrappers
  import opened JavaStrings
  import opened JavaIntegers
  import opened Grammar
  import opened Requests

  /** How a run ends: stopped before any request, or after one attempt per stream id. */
  datatype RunOutcome = Aborted(failure: Failure) | Dispatched(log: seq<Attempt>)

  /** One iteration of the dispatch loop: the stream, the request sent for it, what came of it. */
  datatype Attempt = Attempt(streamId: int, request: Request, outcome: Outcome)

  /**
   * The HTTP collaborator: send(n, request) is the reply to the n-th request of the run
   * (counting from 0), whatever the server and the network make of it.
   */
  type Sender = (nat, Request) -> Reply

  /** The attempt the dispatch loop makes for the index-th id. */
  function AttemptFor(token: string, analyticsType: string, id: int, index: nat, send: Sender): Attempt {
    var request := AnalyticsRequest(token, id, analyticsType);
    Attempt(id, request, Classify(send(index, request)))
  }

  /** log holds one attempt per id of inv, in the order of the ids. */
  predicate DispatchedInOrder(inv: Invocation, send: Sender, log: seq<Attempt>) {
    |log| == |inv.ids|
    && forall i :: 0 <= i < |log| ==> log[i] == AttemptFor(inv.token, inv.analyticsType, inv.ids[i], i, send)
  }

  /** parseRangeArgs. */
  method ParseRangeArgs(args: seq<string>) returns (r: Result<seq<int>, string>)
    ensures r == ParseRange(args)
  {
    if |args| < 5 {
      return Err(MissingRangeArguments);
    }
    var start := ParseInt(args[2]);
    if start.None? {
      return Err(InvalidStart + args[2]);
    }
    var endIndex := if EqualsIgnoreCase(args[3], "TO") then 4 else 3;
    // The source tests endIndex >= args.length here; with five arguments or more it never holds.
    assert endIndex < |args|;
    var end := ParseInt(args[endIndex]);
    if end.None? {
      return Err(InvalidEnd + args[endIndex]);
    }
    // lo and hi are the source's from and to
    var lo := Min(start.value, end.value);
    var hi := Max(start.value, end.value);
    var ids: seq<int> := [];
    var i := lo;
    while i <= hi
      invariant lo <= i <= hi + 1
      invariant ids == Range(lo, i - 1)
      decreases hi - i
    {
      ids := ids + [i];
      i := i + 1;
    }
    return Ok(ids);
  }

  /** The StringBuilder loop of parseForArgs: the tokens after the command, one space apart. */
  method JoinListTokens(args: seq<string>) returns (builder: string)
    requires |args| >= 2
    ensures builder == JoinTokens(args[2..])
  {
    builder := "";
    for i := 2 to |args|
      invariant builder == JoinTokens(args[2..i]) + (if 2 < i < |args| then " " else "")
    {
      JoinTokensStep(args[2..i], args[i]);
      SliceExtends(args, 2, i);
      builder := builder + args[i];
      if i < |args| - 1 {
        builder := builder + " ";
      }
    }
    assert args[2..|args|] == args[2..];
  }

  /** The loop of parseForArgs over the comma-separated parts. */
  method ParseIdentifiers(parts: seq<string>) returns (r: Result<seq<int>, string>)
    ensures r == ParseParts(parts)
  {
    var ids: seq<int> := [];
    for k := 0 to |parts|
      invariant ParseParts(parts[..k]) == Ok(ids)
    {
      var part := Trim(parts[k]);
      if part == [] {
        PartSkipped(parts, k, ids);
        continue;
      }
      var id := ParseInt(part);
      if id.None? {
        PartRejected(parts, k, ids);
        ParsePartsStopsAtError(parts, k + 1);
        return Err(InvalidIdentifier + part);
      }
      PartAccepted(parts, k, ids, id.value);
      ids := ids + [id.value];
    }
    assert parts[..|parts|] == parts;
    return Ok(ids);
  }

  /** parseForArgs. */
  method ParseForArgs(args: seq<string>) returns (r: Result<seq<int>, string>)
    ensures r == ParseList(args)
  {
    if |args| < 3 {
      return Err(MissingList);
    }
    var combined := JoinListTokens(args);
    combined := Trim(combined);
    combined := StripOpenBracket(combined);
    combined := StripCloseBracket(combined);
    combined := CollapseCommaSpace(combined);
    if combined == [] {
      return Err(NoIdentifiersInList);
    }
    var parts := Split(combined, ',');
    r := ParseIdentifiers(parts);
  }

  /** The argument checks at the head of run, up to and including the empty-list check. */
  method CheckArguments(args: seq<string>) returns (r: Result<Invocation, Failure>)
    ensures r == ParseArguments(args)
  {
    if |args| < 4 {
      return Err(Usage);
    }
    var command := ToUpper(args[1]);
    var analyticsType := ToUpper(args[|args| - 1]);
    if analyticsType != "OD" && analyticsType != "SVA" {
      return Err(Rejected(UnrecognizedType + analyticsType, true));
    }
    var baseArgs := args[..|args| - 1];
    assert baseArgs[1] == args[1];
    var streamIds: Result<seq<int>, string>;
    if command == "FROM" {
      streamIds := ParseRangeArgs(baseArgs);
    } else if command == "FOR" {
      streamIds := ParseForArgs(baseArgs);
    } else {
      return Err(Rejected(UnrecognizedCommand + args[1], true));
    }
    assert streamIds == ParseStreamIds(baseArgs);
    if streamIds.Err? {
      return Err(Rejected(streamIds.error, true));
    }
    var ids := streamIds.value;
    if ids == [] {
      return Err(Rejected(NoStreamIdentifiers, false));
    }
    return Ok(Invocation(args[0], analyticsType, ids));
  }

  /**
   * The dispatch loop of run: one createAnalytics attempt per stream id, in order, each
   * caught on its own so that a failed attempt never stops the ones after it.
   */
  method Dispatch(inv: Invocation, send: Sender) returns (log: seq<Attempt>)
    ensures DispatchedInOrder(inv, send, log)
  {
    log := [];
    for i := 0 to |inv.ids|
      invariant |log| == i
      invariant forall j :: 0 <= j < i ==> log[j] == AttemptFor(inv.token, inv.analyticsType, inv.ids[j], j, send)
    {
      var request := AnalyticsRequest(inv.token, inv.ids[i], inv.analyticsType);
      var reply := send(i, request);
      log := log + [Attempt(inv.ids[i], request, Classify(reply))];
    }
  }

  /** run: the argument checks, then the dispatch loop when they pass. */
  method Run(args: seq<string>, send: Sender) returns (r: RunOutcome)
    ensures ParseArguments(args).Err? <==> r.Aborted?
    ensures r.Aborted? ==> r.failure == ParseArguments(args).error
    ensures r.Dispatched? ==> DispatchedInOrder(ParseArguments(args).value, send, r.log)
  {
    var checked := CheckArguments(args);
    if checked.Err? {
      return Aborted(checked.error);
    }
    var log := Dispatch(checked.value, send);
    return Dispatched(log);
  }

  /**
   * In a dispatched run, attempt i is for the i-th id, goes to the smart_va endpoint exactly
   * when the type is SVA (object_in_zone for OD), carries the id in its body, and counts as
   * created exactly when the reply is a status from 200 to 299.
   */
  lemma DispatchedAttempts(inv: Invocation, send: Sender, log: seq<Attempt>, i: nat)
    requires inv.analyticsType in ["OD", "SVA"]
    requires DispatchedInOrder(inv, send, log) && i < |log|
    requires IsInt(inv.ids[i])
    ensures log[i].streamId == inv.ids[i]
    ensures log[i].request.url == (if inv.analyticsType == "SVA" then SmartVaUrl else ObjectInZoneUrl)
    ensures ParseInt(log[i].request.streamIdMember[|StreamIdKey|..]) == Some(inv.ids[i])
    ensures log[i].outcome.Created? <==>
      (send(i, log[i].request).Response? && 200 <= send(i, log[i].request).status < 300)
  {
    var request := AnalyticsRequest(inv.token, inv.ids[i], inv.analyticsType);
    assert log[i] == Attempt(inv.ids[i], request, Classify(send(i, request)));
    RequestEndpoint(inv.token, inv.ids[i], inv.analyticsType);
    RequestBody(inv.token, inv.ids[i], inv.analyticsType);
    assert ToUpper(inv.analyticsType) == inv.analyticsType by {
      assert ToUpper("OD") == "OD" && ToUpper("SVA") == "SVA";
    }
  }
}
