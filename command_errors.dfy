/**
 * The slash-command error hook `on_app_command_error` (main.py:121-139). It
 * tests the error's class in order and answers with a localized, ephemeral
 * message; only an error outside every tested class is logged.
 */
module CommandErrors {
  import opened Replies

  /**
   * The errors the command tree hands to the hook. In the platform library
   * MissingPermissions, BotMissingPermissions and CommandOnCooldown are
   * subclasses of CheckFailure; CommandNotFound is not.
   */
  datatype AppCommandError =
    | CommandNotFound(name: string)
    | MissingPermissions(missing: seq<string>)
    | BotMissingPermissions(missing: seq<string>)
    | CommandOnCooldown(retryAfter: string)  // `retry_after` as `str.format` renders it
    | OtherCheckFailure(kind: string)        // any other CheckFailure, such as NoPrivateMessage
    | OtherError(kind: string)               // any other AppCommandError

  /** `isinstance(error, app_commands.CheckFailure)`. */
  predicate IsCheckFailure(e: AppCommandError)
  {
    e.MissingPermissions? || e.BotMissingPermissions? || e.CommandOnCooldown? || e.OtherCheckFailure?
  }

  /** The reply sent and whether the error is written to the log. */
  datatype Handling = Handling(reply: Reply, logged: bool)

  const UnexpectedKey := "error_unexpected"

  /** The branches of main.py:127-139, tested in their order. */
  function OnAppCommandError(e: AppCommandError): (h: Handling)
    ensures h.reply.ephemeral
    ensures h.logged <==> !e.CommandNotFound? && !IsCheckFailure(e)
    ensures h.reply.key == UnexpectedKey <==> e.OtherCheckFailure? || e.OtherError?
    ensures e.CommandNotFound? ==> h.reply == Ephemeral("error_command_not_found")
    ensures e.MissingPermissions? ==> h.reply == Ephemeral("error_missing_permissions")
    ensures e.BotMissingPermissions? ==> h.reply == Ephemeral("error_bot_missing_permissions")
    ensures e.CommandOnCooldown? ==>
      h.reply == EphemeralWith("error_command_on_cooldown", "retry_after", e.retryAfter)
    ensures !e.CommandOnCooldown? ==> h.reply.args == map[]
  {
    if e.CommandNotFound? then
      Handling(Ephemeral("error_command_not_found"), false)
    else if e.MissingPermissions? then
      Handling(Ephemeral("error_missing_permissions"), false)
    else if e.BotMissingPermissions? then
      Handling(Ephemeral("error_bot_missing_permissions"), false)
    else if e.CommandOnCooldown? then
      Handling(EphemeralWith("error_command_on_cooldown", "retry_after", e.retryAfter), false)
    else if IsCheckFailure(e) then
      Handling(Ephemeral(UnexpectedKey), false)  // a CheckFailure gets the generic message
    else
      Handling(Ephemeral(UnexpectedKey), true)
  }

  /**
   * The two generic cases send the same reply and differ only in the log;
   * the three CheckFailure subclasses tested first get their own messages.
   */
  lemma GenericRepliesAgree(kind: string, other: string)
    ensures OnAppCommandError(OtherCheckFailure(kind)).reply == OnAppCommandError(OtherError(other)).reply
    ensures !OnAppCommandError(OtherCheckFailure(kind)).logged && OnAppCommandError(OtherError(other)).logged
    ensures forall e :: IsCheckFailure(e) && !e.OtherCheckFailure? ==> OnAppCommandError(e).reply.key != UnexpectedKey
  {
  }

  /** Distinct error classes other than the two generic ones are told apart by their reply. */
  lemma SpecificRepliesDistinct(a: AppCommandError, b: AppCommandError)
    requires !a.OtherCheckFailure? && !a.OtherError? && !b.OtherCheckFailure? && !b.OtherError?
    requires OnAppCommandError(a).reply.key == OnAppCommandError(b).reply.key
    ensures a.CommandNotFound? == b.CommandNotFound?
    ensures a.MissingPermissions? == b.MissingPermissions?
    ensures a.BotMissingPermissions? == b.BotMissingPermissions?
    ensures a.CommandOnCooldown? == b.CommandOnCooldown?
  {
  }
}
