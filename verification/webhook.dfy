/**
 * The webhook subscription handshake (main.py lines 292-297): the messaging
 * provider proves the endpoint is ours by sending the configured verify
 * token and expects its challenge echoed back as an integer.
 */
module Webhook {
  import opened Options

  /** The verify token used when the environment does not set one (main.py line 14). */
  const DefaultVerifyToken: string := "verify_me"

  /** `os.getenv("VERIFY_TOKEN", "verify_me")`. */
  function ConfiguredVerifyToken(env: Option<string>): (t: string)
    ensures env.Some? ==> t == env.value
    ensures env.None? ==> t == DefaultVerifyToken
  {
    env.GetOr(DefaultVerifyToken)
  }

  /** The query parameters of the handshake; absent ones are `None`. */
  datatype Query = Query(mode: Option<string>, verifyToken: Option<string>, challenge: Option<int>)

  datatype Response = Challenge(value: int) | Failed(message: string)

  /**
   * Echo the challenge (0 when it is absent) when the mode is `subscribe`
   * and the token matches; otherwise answer with the failure text.
   */
  function VerifyWebhook(q: Query, verifyToken: string): (r: Response)
    ensures r.Challenge? <==> q.mode == Some("subscribe") && q.verifyToken == Some(verifyToken)
    ensures r.Challenge? ==> r.value == (if q.challenge.Some? then q.challenge.value else 0)
    ensures r.Failed? ==> r.message == "Verification failed"
  {
    if q.mode == Some("subscribe") && q.verifyToken == Some(verifyToken) then
      Challenge(q.challenge.GetOr(0))
    else
      Failed("Verification failed")
  }

  /**
   * A handshake without a token, or with any mode but `subscribe`, is always
   * refused; with no token configured, only `verify_me` is accepted.
   */
  lemma HandshakeGuard(q: Query, env: Option<string>)
    ensures q.verifyToken.None? ==> VerifyWebhook(q, ConfiguredVerifyToken(env)).Failed?
    ensures q.mode != Some("subscribe") ==> VerifyWebhook(q, ConfiguredVerifyToken(env)).Failed?
    ensures env.None? && q.mode == Some("subscribe") ==>
              (VerifyWebhook(q, ConfiguredVerifyToken(env)).Challenge? <==> q.verifyToken == Some("verify_me"))
  {
  }
}
