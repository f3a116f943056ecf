/** `GetSummary`: how each way a kubelet request can end turns into a summary, an error or a panic. */
module Kubelet {
  import opened Options
  import opened Stats

  /**
   A response body: not JSON at all, or JSON from which these fields were filled in, with or without a
   field of the wrong type on the way.
   */
  datatype Body = NotJSON | JSON(node: NodeStats, pods: seq<PodStats>, wellTyped: bool)

  datatype KubeletReply = TransportError | BodyReadError | Response(status: int, body: Body)

  datatype KubeletClient = KubeletClient(ip: string, requestBuilds: bool, reply: KubeletReply)

  const STATUS_OK := 200
  const STATUS_NOT_FOUND := 404

  datatype FetchError = TransportFailed | BodyUnread | NotFound | BadStatus(status: int) | NotParsed

  datatype FetchResult = Fetched(summary: Summary) | RequestFailed | FetchPanicked

  predicate FetchFails(reply: KubeletReply) {
    match reply
    case TransportError => true
    case BodyReadError => true
    case Response(status, _) => status != STATUS_OK
  }

  /** The summary a call hands on, whatever became of the fetch. */
  function SummaryFor(client: KubeletClient): FetchResult {
    if !client.requestBuilds then
      RequestFailed
    else if FetchFails(client.reply) then
      Fetched(Summary(client.ip, EMPTY_NODE, []))
    else
      match client.reply.body
      case NotJSON => FetchPanicked
      case JSON(node, pods, _) => Fetched(Summary(client.ip, node, pods))
  }

  /** The summary being filled in through a pointer. */
  class SummaryVar {
    var value: Summary

    constructor ()
      ensures value == Summary("", EMPTY_NODE, [])
    {
      value := Summary("", EMPTY_NODE, []);
    }
  }

  /** Every failed fetch returns an error and leaves the summary alone; an unparsed body panics. */
  method MakeRequestAndGetValue(reply: KubeletReply, value: SummaryVar)
      returns (err: Option<FetchError>, panicked: bool)
    modifies value
    ensures (reply.Response? ==> reply.status != 200) ==> !panicked && value.value == old(value.value)
    ensures reply.TransportError? ==> err == Some(TransportFailed)
    ensures reply.BodyReadError? ==> err == Some(BodyUnread)
    ensures reply.Response? && reply.status != 200 ==>
              err == Some(if reply.status == 404 then NotFound else BadStatus(reply.status))
    ensures reply.Response? && reply.status == 200 ==> (panicked <==> reply.body.NotJSON?)
    ensures reply.Response? && reply.status == 200 && !panicked ==>
              && err == (if reply.body.wellTyped then None else Some(NotParsed))
              && value.value == Summary(old(value.value.ip), reply.body.node, reply.body.pods)
  {
    match reply
    case TransportError =>
      return Some(TransportFailed), false;
    case BodyReadError =>
      return Some(BodyUnread), false;
    case Response(status, body) =>
      if status == STATUS_NOT_FOUND {
        return Some(NotFound), false;
      } else if status != STATUS_OK {
        return Some(BadStatus(status)), false;
      }
      if body.NotJSON? {
        return None, true;
      }
      value.value := value.value.(node := body.node, pods := body.pods);
      if !body.wellTyped {
        return Some(NotParsed), false;
      }
      return None, false;
  }

  /** The error of the fetch is logged and goes no further. */
  method GetSummary(client: KubeletClient) returns (result: FetchResult)
    ensures result == SummaryFor(client)
    ensures !client.requestBuilds <==> result.RequestFailed?
    ensures client.requestBuilds && (client.reply.Response? ==> client.reply.status != 200) ==>
              result == Fetched(Summary(client.ip, NodeStats("", None, None, None, None), []))
    ensures client.requestBuilds && client.reply.Response? && client.reply.status == 200 ==>
              if client.reply.body.NotJSON? then result.FetchPanicked?
              else result == Fetched(Summary(client.ip, client.reply.body.node, client.reply.body.pods))
  {
    if !client.requestBuilds {
      return RequestFailed;
    }
    var summary := new SummaryVar();
    var err, panicked := MakeRequestAndGetValue(client.reply, summary);
    if panicked {
      return FetchPanicked;
    }
    summary.value := summary.value.(ip := client.ip);
    result := Fetched(summary.value);
  }
}
