/** The host's outbound adapter (extensions/nexus/src/outbound.ts): which
    `sendMessageGateway` calls `sendText` and `sendMedia` make, in order,
    and what they return.

    Each call is awaited, so a call that fails (the monitor has no open
    client) ends the sequence with its error; the adapter returns the last
    call's result tagged with the channel. */
module Outbound {
  import opened Wrappers
  import opened Text
  import Send

  /** The size the host splits long texts into before `sendText`. */
  const TextChunkLimit: nat := 4000

  /** One `sendMessageGateway({cfg, to, text})`. */
  datatype Call = Call(to: string, text: string)

  /** `{channel: "gateway", ...result}`. */
  datatype Delivery = Delivery(channel: string, messageId: string, conversationId: string)

  /** The message standing in for an attachment: its URL after a clip. */
  function MediaText(mediaUrl: string): (r: string)
    ensures |r| > |mediaUrl| && r[|r| - |mediaUrl|..] == mediaUrl
  {
    assert ("📎 " + mediaUrl)[|"📎 "|..] == mediaUrl;
    "📎 " + mediaUrl
  }

  /** `sendText`: one call with the same target and text. */
  function SendTextCalls(to: string, text: string): (r: seq<Call>)
    ensures |r| == 1 && r[0].to == to && r[0].text == text
  {
    [Call(to, text)]
  }

  /** `sendMedia`: the text first when it is not blank; then the media URL
      as text when there is one, else the text (or "") again. */
  function SendMediaCalls(to: string, text: Option<string>, mediaUrl: Option<string>): (r: seq<Call>)
    ensures 1 <= |r| <= 2
    ensures r[0].to == to && r[|r| - 1].to == to
    ensures |r| == 2 <==> text.Some? && !AllSpace(text.value)
    ensures |r| == 2 ==> r[0].text == text.value
    ensures mediaUrl.Some? && mediaUrl.value != "" ==> r[|r| - 1].text == MediaText(mediaUrl.value)
    ensures mediaUrl.None? || mediaUrl.value == "" ==> r[|r| - 1].text == text.GetOr("")
  {
    var last := if mediaUrl.Some? && mediaUrl.value != "" then Call(to, MediaText(mediaUrl.value)) else Call(to, text.GetOr(""));
    if text.Some? && Trim(text.value) != "" then [Call(to, text.value), last] else [last]
  }

  /** Without media, text that is not blank goes out twice, and blank or
      missing text goes out once as it is. */
  lemma TextWithoutMedia(to: string, text: Option<string>)
    ensures text.Some? && !AllSpace(text.value) ==>
      SendMediaCalls(to, text, None) == [Call(to, text.value), Call(to, text.value)]
    ensures text.None? || AllSpace(text.value) ==>
      SendMediaCalls(to, text, None) == [Call(to, text.GetOr(""))]
  {
  }

  /** With media, the text is sent once, before the URL, unless it is
      blank; nothing else is sent. */
  lemma TextThenMedia(to: string, text: Option<string>, url: string)
    requires url != ""
    ensures text.Some? && !AllSpace(text.value) ==>
      SendMediaCalls(to, text, Some(url)) == [Call(to, text.value), Call(to, MediaText(url))]
    ensures text.None? || AllSpace(text.value) ==>
      SendMediaCalls(to, text, Some(url)) == [Call(to, MediaText(url))]
  {
  }

  /** The adapter's result from the results of its calls, in order: the
      first failure, else the last result tagged with the channel. */
  function Outcome(results: seq<Result<Send.SendResult, string>>): (r: Result<Delivery, string>)
    requires results != []
    ensures r.Success? <==> forall i :: 0 <= i < |results| ==> results[i].Success?
    ensures r.Success? ==>
      r.value == Delivery("gateway", results[|results| - 1].value.messageId, results[|results| - 1].value.conversationId)
    ensures r.Failure? ==>
      exists i :: 0 <= i < |results| && results[i] == Failure(r.error) && forall j :: 0 <= j < i ==> results[j].Success?
    decreases |results|
  {
    if results[0].Failure? then Failure(results[0].error)
    else if |results| == 1 then
      Success(Delivery("gateway", results[0].value.messageId, results[0].value.conversationId))
    else
      var r := Outcome(results[1..]);
      assert forall i :: 1 <= i < |results| ==> results[i] == results[1..][i - 1];
      if r.Failure? then
        var i :| 0 <= i < |results| - 1 && results[1..][i] == Failure(r.error)
                 && forall j :: 0 <= j < i ==> results[1..][j].Success?;
        assert results[i + 1] == Failure(r.error);
        assert forall j :: 0 <= j < i + 1 ==> results[j].Success?;
        r
      else r
  }

  /** How many calls are made before one fails: the calls after a failure
      do not happen. */
  function Made(results: seq<Result<Send.SendResult, string>>): (n: nat)
    ensures n <= |results|
    ensures forall i :: 0 <= i < n - 1 ==> results[i].Success?
    ensures n < |results| ==> n > 0 && results[n - 1].Failure?
    ensures results != [] ==> n > 0
    decreases |results|
  {
    if results == [] then 0
    else if results[0].Failure? then 1
    else 1 + Made(results[1..])
  }

  /** With the monitor's client not open every call fails alike: the
      adapter fails with `sendMessageGateway`'s error after its first call. */
  lemma NotConnectedFailsFirst(results: seq<Result<Send.SendResult, string>>)
    requires results != [] && forall i :: 0 <= i < |results| ==> results[i] == Failure(Send.NotConnected)
    ensures Outcome(results) == Failure(Send.NotConnected)
    ensures Made(results) == 1
  {
  }
}
