/**
 * Turning the router's replies into the messages handed to the transport:
 * knowledge-base texts become text messages (after the optional rephrasing
 * step where the router asked for it), payloads become interactive messages.
 * The HTTP calls of `send_text` / `send_interactive_message` (main.py lines
 * 101-134) and of the rephrasing service are not part of this model; the
 * service's answer is a parameter.
 */
module Delivery {
  import opened Options
  import opened Strings
  import opened Kb
  import opened Payloads
  import opened Router

  /** One message handed to the transport. */
  datatype Outgoing = SendText(body: string) | SendInteractive(payload: Payload)

  /**
   * The rephrasing step of main.py lines 258-286. `apiKey` is the configured
   * key, empty when unset; `response` is the content of the first choice the
   * chat-completions call returned, or `None` when the call raised (network
   * error, error status, malformed answer).
   */
  function Rephrase(original: string, apiKey: string, response: Option<string>): (r: string)
    ensures apiKey == "" || response.None? ==> r == original
    ensures apiKey != "" && response.Some? ==> Trimmed(r) && exists i :: PaddedBy(response.value, i, r)
  {
    if apiKey == "" then original
    else
      match response
      case None => original
      case Some(content) => Strip(content)
  }

  /**
   * The step fails open, and only then: the approved text goes out unchanged
   * when there is no key or the call fails. An answer that is already trimmed
   * goes out as it is, and an answer made only of whitespace goes out as the
   * empty text, since nothing checks the rewrite for emptiness.
   */
  lemma RephraseFailsOpen(original: string, apiKey: string, response: Option<string>)
    ensures Rephrase(original, apiKey, response) != original ==> apiKey != "" && response.Some?
    ensures apiKey != "" && response.Some? && Trimmed(response.value) ==>
              Rephrase(original, apiKey, response) == response.value
    ensures apiKey != "" && response.Some? && AllSpace(response.value) ==>
              Rephrase(original, apiKey, response) == ""
  {
    if apiKey != "" && response.Some? {
      var content := response.value;
      if Trimmed(content) {
        StripTrimmed(content);
      }
      if AllSpace(content) {
        var r := Rephrase(original, apiKey, response);
        var i :| PaddedBy(content, i, r);
      }
    }
  }

  /** The message one reply becomes; `kb` gives each topic's text, `llm` the service's answer to a text. */
  function DeliverOne(reply: Reply, kb: Topic -> string, apiKey: string, llm: string -> Option<string>): Outgoing
  {
    match reply
    case Say(t, rephrased) =>
      if rephrased then SendText(Rephrase(kb(t), apiKey, llm(kb(t)))) else SendText(kb(t))
    case Show(p) => SendInteractive(p)
  }

  /**
   * The messages sent for a sequence of replies, one per reply and in the same
   * order. Payloads are never rephrased, and neither are the texts the router
   * marks as sent verbatim.
   */
  function Deliver(replies: seq<Reply>, kb: Topic -> string, apiKey: string, llm: string -> Option<string>): (out: seq<Outgoing>)
    ensures |out| == |replies|
    ensures forall k :: 0 <= k < |out| ==> (out[k].SendInteractive? <==> replies[k].Show?)
    ensures forall k :: 0 <= k < |out| && replies[k].Show? ==> out[k] == SendInteractive(replies[k].payload)
    ensures forall k :: 0 <= k < |out| && replies[k].Say? && !replies[k].rephrased ==>
              out[k] == SendText(kb(replies[k].topic))
    ensures forall k :: 0 <= k < |out| && replies[k].Say? && replies[k].rephrased ==>
              out[k] == SendText(Rephrase(kb(replies[k].topic), apiKey, llm(kb(replies[k].topic))))
  {
    if |replies| == 0 then []
    else [DeliverOne(replies[0], kb, apiKey, llm)] + Deliver(replies[1..], kb, apiKey, llm)
  }

  /**
   * When the rephrasing step is unavailable (no key, or every call fails),
   * every text sent is its knowledge-base entry verbatim.
   */
  lemma {:induction false} UnavailableRephrasingIsVerbatim(
    replies: seq<Reply>, kb: Topic -> string, apiKey: string, llm: string -> Option<string>)
    requires apiKey == "" || forall x :: llm(x).None?
    ensures forall k :: 0 <= k < |replies| && replies[k].Say? ==>
              Deliver(replies, kb, apiKey, llm)[k] == SendText(kb(replies[k].topic))
    decreases |replies|
  {
    if |replies| > 0 {
      UnavailableRephrasingIsVerbatim(replies[1..], kb, apiKey, llm);
      var out := Deliver(replies, kb, apiKey, llm);
      forall k | 0 <= k < |replies| && replies[k].Say?
        ensures out[k] == SendText(kb(replies[k].topic))
      {
        if k > 0 {
          assert out[k] == Deliver(replies[1..], kb, apiKey, llm)[k - 1];
          assert replies[1..][k - 1] == replies[k];
        }
      }
    }
  }

  /**
   * The full answer to one webhook delivery: the messages sent and the status
   * string returned.
   */
  function Respond(ev: Event, kb: Topic -> string, apiKey: string, llm: string -> Option<string>): (r: (seq<Outgoing>, string))
    ensures r.1 == "ok" <==> |r.0| > 0
    ensures r.1 == "no_message" <==> ev.NoMessage?
    ensures ev.Interactive? && ev.replyId !in HandledIds && r.1 == "ok" ==> r.0 == [SendText(kb(OutOfScope))]
  {
    var o := HandleMessage(ev);
    (Deliver(o.replies, kb, apiKey, llm), StatusName(o.status))
  }
}
