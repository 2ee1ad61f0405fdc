/** Whether the installed game files match the server (`is_valid_files`,
    src/minecraft/validate.rs). */
module Validate {
  import opened Wrappers
  import opened Http

  /** What a failed directory checksum is replaced by. */
  const CHECKSUM_FAILED := "error"

  /** The local checksum as the source keeps it: the computed value, or the
      literal `"error"` when the computation failed. */
  function LocalChecksum(computed: Option<string>): string {
    match computed
    case Some(s) => s
    case None => CHECKSUM_FAILED
  }

  /** The server is asked for its checksum only when the local one did not
      come out as `"error"`. */
  predicate RequestMade(computed: Option<string>) {
    LocalChecksum(computed) != CHECKSUM_FAILED
  }

  /** `is_valid_files`. `computed` is the outcome of hashing the game
      directory, `reply` the answer to `GET <URL>/checksum`; the request is
      unwrapped, so it must be delivered whenever it is made. A body that
      cannot be read counts as empty; the status is not looked at. */
  function IsValidFiles(computed: Option<string>, reply: Reply<TextResponse>): (valid: bool)
    requires RequestMade(computed) ==> reply.Delivered?
    ensures valid <==>
      && computed.Some? && computed.value != CHECKSUM_FAILED
      && reply.response.text.GetOr("") == computed.value
  {
    var checksum := LocalChecksum(computed);
    if checksum == CHECKSUM_FAILED then false
    else reply.response.text.GetOr("") == checksum
  }

  /** A directory whose checksum happens to be the text `"error"` is never
      valid, even when the server agrees. */
  lemma ErrorChecksumNeverValid(status: nat)
    ensures !IsValidFiles(Some(CHECKSUM_FAILED), Delivered(TextResponse(status, Some(CHECKSUM_FAILED))))
  {
  }

  /** The reply's status plays no part, and an unreadable body is the empty
      text. */
  lemma StatusAndReadFailureIgnored(computed: Option<string>, s1: nat, s2: nat, text: Option<string>)
    requires RequestMade(computed)
    ensures IsValidFiles(computed, Delivered(TextResponse(s1, text))) ==
            IsValidFiles(computed, Delivered(TextResponse(s2, Some(text.GetOr("")))))
  {
  }
}
