/** Optional values and the exceptions the bot's core can raise. */
module Outcomes {

  datatype Option<+T> = None | Some(value: T)

  /** The exceptions that can leave the modelled code of windfarm/bot.py. */
  datatype Failure =
    | ConfigException  // a credential still holds the placeholder (bot.py:15, 31-34)
    | EmptyRange       // ValueError from random.randrange on an empty range
    | TwitterError     // a platform call that failed

  datatype Result<+T> = Ok(value: T) | Err(error: Failure)
}
