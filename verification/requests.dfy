/**
 * What createAnalytics does around the HTTP call: it picks the endpoint by analytics type,
 * writes the stream id into the body, and reads the response status. The call itself is not
 * modelled here; its answer arrives as a Reply.
 */
module Requests {
  import opened Wrappers
  import opened JavaStrings
  import opened JavaIntegers

  const SmartVaUrl := "http://localhost:2001/api/v2/smart_va/analytics"
  const ObjectInZoneUrl := "http://localhost:2001/api/v2/object_in_zone/analytics"
  const StreamIdKey := "\"stream_id\":"

  /**
   * The parts of the POST that depend on createAnalytics' arguments: the endpoint, the
   * Authorization header and the stream_id member of the JSON body (the rest of the body is
   * fixed text).
   */
  datatype Request = Request(url: string, authorization: string, streamIdMember: string)

  /** What HttpClient.send gives back: a response, or the message of an IOException or InterruptedException. */
  datatype Reply = Response(status: int, body: string) | Thrown(message: string)

  /** The outcome run reports for one stream. */
  datatype Outcome = Created | Refused(status: int, body: string) | Failed(message: string)

  /** The request createAnalytics sends for one stream. */
  function AnalyticsRequest(token: string, streamId: int, analyticsType: string): (r: Request)
    ensures r.url in [SmartVaUrl, ObjectInZoneUrl]
    ensures |r.authorization| == 7 + |token|
    ensures r.authorization[..7] == "Bearer " && r.authorization[7..] == token
    ensures |r.streamIdMember| > |StreamIdKey| && r.streamIdMember[..|StreamIdKey|] == StreamIdKey
  {
    Request(
      if EqualsIgnoreCase(analyticsType, "SVA") then SmartVaUrl else ObjectInZoneUrl,
      "Bearer " + token,
      StreamIdKey + ToDecimal(streamId))
  }

  /** The endpoint is smart_va exactly when the type is SVA in any case, object_in_zone otherwise. */
  lemma RequestEndpoint(token: string, streamId: int, analyticsType: string)
    ensures var url := AnalyticsRequest(token, streamId, analyticsType).url;
      && (url == SmartVaUrl <==> ToUpper(analyticsType) == "SVA")
      && (url == ObjectInZoneUrl <==> ToUpper(analyticsType) != "SVA")
  {
    assert SmartVaUrl != ObjectInZoneUrl by {
      assert SmartVaUrl[29] != ObjectInZoneUrl[29];
    }
    assert ToUpper("SVA") == "SVA";
    assert EqualsIgnoreCase(analyticsType, "SVA") <==> ToUpper(analyticsType) == "SVA";
  }

  /**
   * The token goes into a Bearer header, and the body names the stream id in decimal, which
   * reads back as that id.
   */
  lemma RequestBody(token: string, streamId: int, analyticsType: string)
    requires IsInt(streamId)
    ensures var req := AnalyticsRequest(token, streamId, analyticsType);
      && req.authorization == "Bearer " + token
      && req.streamIdMember[..|StreamIdKey|] == StreamIdKey
      && ParseInt(req.streamIdMember[|StreamIdKey|..]) == Some(streamId)
  {
    var member := AnalyticsRequest(token, streamId, analyticsType).streamIdMember;
    assert member[|StreamIdKey|..] == ToDecimal(streamId);
    ParseIntToDecimal(streamId);
  }

  /** The status test of createAnalytics together with the catch around it in run. */
  function Classify(reply: Reply): (o: Outcome)
    ensures o.Created? <==> reply.Response? && 200 <= reply.status < 300
    ensures o.Refused? <==> reply.Response? && !(200 <= reply.status < 300)
    ensures o.Refused? ==> reply == Response(o.status, o.body)
    ensures o.Failed? <==> reply.Thrown?
    ensures o.Failed? ==> o.message == reply.message
  {
    match reply
    case Response(status, body) =>
      if 200 <= status < 300 then Created else Refused(status, body)
    case Thrown(message) => Failed(message)
  }
}
