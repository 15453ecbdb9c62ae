/**
 * What a handler sends back: `interaction.response.send_message(messages[key].format(**args), ephemeral=...)`,
 * with the message named by its key in the locale's translation table.
 */
module Replies {

  datatype Reply = Reply(key: string, args: map<string, string>, ephemeral: bool)

  /** An ephemeral reply with a message that takes no arguments. */
  function Ephemeral(key: string): Reply
  {
    Reply(key, map[], true)
  }

  /** An ephemeral reply whose message is formatted with the one named argument `name`. */
  function EphemeralWith(key: string, name: string, value: string): Reply
  {
    Reply(key, map[name := value], true)
  }
}
