/** The configuration the bot reads, as a value. */
module Settings {
  import opened Outcomes

  /** The sentinel a credential holds in the shipped default configuration. */
  const Placeholder: string := "xxx"

  datatype ApiKeys = ApiKeys(
    consumerKey: string,
    consumerSecret: string,
    accessKey: string,
    accessSecret: string)

  /** A task's period: a fixed number of seconds, or a two-element [lo, hi) range to draw from. */
  datatype TimerSpec = Every(seconds: int) | Jitter(lo: int, hi: int)

  /** One periodic task: whether it runs, its period, and the page size it asks the platform for. */
  datatype Task = Task(enabled: bool, timer: TimerSpec, count: int)

  datatype Config = Config(
    apiKeys: ApiKeys,
    singular: seq<string>,          // causes.singular
    plural: seq<string>,            // causes.plural
    effects: Option<seq<string>>,   // None when the key is absent
    phrases: seq<string>,
    tweets: Task,
    mentions: Task,
    search: Task)
}
