# windfarm bot — a Dafny model of `WindfarmBot`

The windfarm bot is a small Twitter bot that posts sentences of the form
"*X* causes *Y*". It also answers mentions, and tweets found by searching
for one of its effects, with sentences of the same form. The bot has three
periodic tasks: a random tweet, a mentions check and a search-and-reply.
Each task runs on a timer. Its delay comes from a configured period and
the time the task last ran. The tasks keep cursors (`last_mention_id`,
`last_search_id`) and timestamps in a small persistent key/value state,
so that a restart does not answer the same status twice.

This project models the class `WindfarmBot` of `windfarm/bot.py`:

- `Settings`: the configuration the bot reads, as a value. It holds the
  four API credentials, the singular and plural causes, the optional
  effects, the phrases, and per task whether it runs, its timer (an
  integer period or a `[lo, hi)` range) and its page size.
- `Outcomes`: `Option`, `Result`, and the three exceptions that can leave
  the modelled code:
  - `ConfigException`;
  - the `ValueError` of `random.randrange` on an empty range (`EmptyRange`);
  - `twitter.TwitterError`.
- `Scheduling`: `setup_timer`, as a pure function of the timer setting, the
  last recorded run, the current time and the random draw. A timer is
  represented by its delay.
- `Generation`:
  - the word lists built by `__init__`: the credential check, causes as
    `(text, singular)` pairs, and the effects defaulting to the cause texts;
  - `generate`: the choice of cause and effect, with Python's
    `list.remove` on a copy, and the `"{} cause{} {}"` format.
- `Replies`: the reply loop shared by `check_mentions` and
  `search_and_reply`, stated as a function `Run` over the fetched statuses
  in oldest-first order, with lemmas about where the cursor ends, which
  replies go out and when the loop stops.
- `Bot`: the class `WindfarmBot`, whose fields are:
  - the configuration and word lists (`const`);
  - the cursor state `state: map<string, int>`;
  - `saved`, the map last written by `state.save()`;
  - the delay of each task's current timer.

  Its methods model the constructor, `random_tweet`, `check_mentions` and
  `search_and_reply`. The reply loops are `while` loops proved against
  `Run`, and they update `state` in place as the source does.

The platform, the clock and the random module are inputs:
- the fetched statuses, as `(id, screen name)` records, newest first;
- whether the fetch failed;
- which reply posts the platform rejects, as a predicate on status ids;
- the bot's own screen name;
- `now`;
- explicit random draws, each with a precondition that keeps it inside
  the range `randrange` would draw from.

### Behaviour of the code worth knowing

- **No cause is excluded for a given effect.** The guard at
  `windfarm/bot.py:143` is meant to take a given effect out of the cause
  candidates, as the comment at `windfarm/bot.py:148` says for the
  reverse direction ("wind farms probably don't cause wind farms"). But
  `effect in causes` compares a string with `(text, flag)` tuples, so it
  never matches and nothing is removed. `Generation.PickCause` ignores the
  effect. `Generation.CauseNotExcluded` and
  `Generation.SelfCausationWithGivenEffect` show that the cause can equal
  the given effect ("wind farms cause wind farms").
- **Empty lists fail when `generate` is called.** The constructor
  (`windfarm/bot.py:30-44`) checks only the credentials. An empty cause
  list, or an effect pool left empty by the removal at
  `windfarm/bot.py:149-151`, makes `random.randrange(0, 0)` raise
  `ValueError` inside `generate` (`Generation.SingleCauseCannotGenerate`).
- **An explicit cause takes its number from `singular`.** The docstring at
  `windfarm/bot.py:135-139` says a given cause is used as the cause. The
  verb then follows the `singular` argument, which defaults to `True`,
  even for a plural cause: `generate(cause="wind farms")` gives "wind farms
  causes tin-foil hats" (`Generation.WindFarmsScenario`).
- **A raising `generate` inside a reply loop ends the task.** The reply
  loops catch only `twitter.TwitterError` (`windfarm/bot.py:197`, `200`,
  `226`, `229`). When `generate` raises inside a loop:
  - the task stops;
  - the cursor stays where the loop had moved it (`Replies.AbortKeepsCursor`);
  - no `last_*_time` is recorded;
  - the state is not saved;
  - no new timer is set up.

  The model's `Progress.aborted` records this.

## Model

| member | source | states |
|---|---|---|
| Scheduling.ChoosePeriod | windfarm/bot.py:99-102 | An integer timer is the period. A `[lo, hi)` timer gives a period with `lo <= period < hi`. An empty range raises. |
| Scheduling.Delay | windfarm/bot.py:104-111 | The delay is never negative and never exceeds a non-negative period. It is 0 on a cold start (`last` missing or 0). |
| Scheduling.DelayZeroIff | windfarm/bot.py:104-111 | The delay is 0 exactly on a cold start, on a clock behind the last run, or once the period is used up. |
| Scheduling.DelayResumesSchedule | windfarm/bot.py:105-109 | Otherwise the task next runs exactly one period after its last recorded run. |
| Scheduling.OverdueRunsAtOnce | windfarm/bot.py:106-107 | A run overdue by ten seconds starts at once. |
| Scheduling.PartialPeriodWaitsRemainder | windfarm/bot.py:108-109 | A run five seconds short of its period waits five seconds. |
| Scheduling.SetupTimer | windfarm/bot.py:98-115 | setup_timer succeeds exactly when the period can be chosen, and its delay is then `Delay` of the chosen period. The delay is non-negative, at most an integer period, below `hi` (or 0) for a range, and 0 on a cold start. |
| Scheduling.RescheduleWaitsFullPeriod | windfarm/bot.py:175-176 | A timer set up right after recording `now` as the last run waits exactly one full period. |
| Generation.Construct | windfarm/bot.py:30-44 | Raises ConfigException exactly when some credential is `'xxx'`. Otherwise the causes are the singular entries flagged true, then the plural ones flagged false, in order. Effects are the cause texts when the configured effects are None or empty, else the configured list. Phrases are copied. |
| Generation.RemoveFirst | windfarm/bot.py:149-151 | `list.remove` on a copy shortens the list by one exactly when `x` is in it. |
| Generation.RemoveFirstSplit | windfarm/bot.py:149-151 | Without `x` the list is unchanged. With `x`, exactly the element at its first index is dropped and the rest keep their order. |
| Generation.RemoveFirstSubset | windfarm/bot.py:150-152 | The effect candidates left after the removal are all configured effects. |
| Generation.RemoveFirstExcludes | windfarm/bot.py:148-151 | In a list without repeats, removing the first occurrence of `x` leaves no `x`. |
| Generation.PickCause | windfarm/bot.py:141-145 | A given cause is kept with the `singular` argument. Otherwise the result is the pair at the drawn index of the whole cause list, with its own flag, and the given effect plays no part. An empty cause list raises. |
| Generation.PickEffect | windfarm/bot.py:146-152 | A given effect is kept. Otherwise the effect is the one at the drawn index of the pool: the effects without the first copy of the cause. It fails exactly when that pool is empty. The effect is always a configured effect, and with a repeat-free effect list it never equals the cause. |
| Generation.Compose | windfarm/bot.py:140-152 | A drawn cause is the pair at the drawn index. A drawn effect lies in the pool without the chosen cause. With an effect given, the choice fails only when there is no cause to draw. Without one, it succeeds exactly when the pool for the chosen cause is non-empty. |
| Generation.Render | windfarm/bot.py:154 | The text is the cause, then " causes " (singular) or " cause " (plural), then the effect, with the matching length. |
| Generation.VerbMarksNumber | windfarm/bot.py:154 | The verb ends in "s" exactly when the sentence is singular. |
| Generation.Generate | windfarm/bot.py:134-156 | generate fails exactly when the choice of cause and effect fails, and then raises ValueError. Otherwise the text is the chosen sentence formatted by `Render`, so it always contains the word "cause". |
| Generation.ExplicitArguments | windfarm/bot.py:141-156 | With a non-empty cause and effect given, generate returns `cause + " causes "/" cause " + effect` by the `singular` argument. |
| Generation.DrawnArguments | windfarm/bot.py:141-154 | With neither argument given and a non-empty pool, generate returns the drawn pair's text, " causes " or " cause " by the pair's flag, then the drawn effect from the pool without that text. |
| Generation.CauseNotExcluded | windfarm/bot.py:141-145 | With only an effect given, the drawn cause is the cause at the drawn index of the full list. Nothing is excluded. |
| Generation.SelfCausationWithGivenEffect | windfarm/bot.py:141-154 | A bot whose only cause is "wind farms" answers a search for "wind farms" with "wind farms cause wind farms". |
| Generation.SingleCauseVocabulary | windfarm/bot.py:37-41 | With one configured cause and default effects, the only effect is that cause's text. |
| Generation.SingleCauseCannotGenerate | windfarm/bot.py:141-152 | With one configured cause and default effects, `generate()` always raises. |
| Generation.WindFarmsConstruct | windfarm/bot.py:37-44 | Singular "tin-foil hats" and plural "wind farms" give causes `[("tin-foil hats", True), ("wind farms", False)]` and the same texts as effects. |
| Generation.WindFarmsScenario | windfarm/bot.py:146-154 | For that bot, `generate(cause="wind farms")` returns "wind farms causes tin-foil hats" whatever the draw. |
| Replies.OldestFirst | windfarm/bot.py:190 | `reversed(s)`: position i holds the status at position `len(s)-1-i`. |
| Replies.Answered | windfarm/bot.py:219 | The mentions loop answers every status. The search loop answers exactly the statuses not written by the bot's own screen name. |
| Replies.Step | windfarm/bot.py:190-198 | One status: nothing changes after an abort or for a skipped status. Replies are only appended, at most one per status, and one goes out exactly when generate succeeded and the post was accepted. The batch aborts exactly when generate raised. The cursor moves to the status exactly when it is answered and generate succeeds, and otherwise stays where it was. |
| Replies.Run | windfarm/bot.py:190-199 | The loop over the statuses in oldest-first order posts at most one reply per status. |
| Replies.Reply.Text | windfarm/bot.py:191 | A reply's text is "@", the author's screen name, a space, then the utterance. |
| Replies.AbortIsFinal | windfarm/bot.py:188-201 | Once generate has raised in a batch, the rest of the batch changes nothing. |
| Replies.AbortKeepsCursor | windfarm/bot.py:190-193 | When generate raises for an answered status, the batch aborts with the cursor where the statuses before it had moved it. |
| Replies.RunAbortsIff | windfarm/bot.py:190-199 | A batch is aborted exactly when generate raises for some answered status. |
| Replies.RunCursor | windfarm/bot.py:218-222 | After a full batch the cursor is unchanged exactly when no status was answered. Otherwise it is the id of the last answered status in oldest-first order. |
| Replies.PostedAreAccepted | windfarm/bot.py:191-198 | Every reply sent answers an answered status whose post the platform accepted, with the utterance generated for that status. |
| Replies.AcceptedArePosted | windfarm/bot.py:190-198 | After a full batch, every answered status whose post the platform accepts has a reply sent to it. |
| Replies.NewestMentionIsCursor | windfarm/bot.py:190-193 | After a full, non-empty mentions batch, the cursor is the id of the newest fetched mention. |
| Replies.EmptyBatch | windfarm/bot.py:190 | An empty batch moves no cursor and posts nothing. |
| Replies.RejectedReplyDoesNotStopBatch | windfarm/bot.py:193-198 | With mentions 10 and 11 and the reply to 10 rejected, the batch continues: the cursor ends at 11 and only the reply to 11 goes out. |
| Bot.Lookup | windfarm/bot.py:189 | `state[key]` is None for a key never written, else the stored value. |
| Bot.Advance | windfarm/bot.py:193 | A batch that moved its cursor leaves that id under the cursor key. Every other key is unchanged, and a batch that did not move it changes nothing. |
| Bot.WindfarmBot.constructor | windfarm/bot.py:19-44 | The bot holds the configuration, the word lists Construct builds and the loaded state, with no timers yet. |
| Bot.NewBot | windfarm/bot.py:29-44 | Construction fails with ConfigException exactly when a credential is `'xxx'`. Otherwise it yields a fresh bot holding Construct's lists. |
| Bot.WindfarmBot.Answer | windfarm/bot.py:190-198 | One status of a batch is one `Run` step. The cursor key is set to the status's id exactly when it is answered and generate succeeds. |
| Bot.WindfarmBot.ReplyBatch | windfarm/bot.py:190-198 | The loop over `reversed(s)` produces exactly `Run` over the oldest-first statuses. The state afterwards is the old state advanced to the loop's cursor. |
| Bot.WindfarmBot.RandomTweet | windfarm/bot.py:158-177 | If generate or the post raises, nothing changes. Otherwise the tweet is generate's text, `last_tweet_time` is `now`, and the new timer is setup_timer's delay, or its error. |
| Bot.WindfarmBot.CheckMentions | windfarm/bot.py:179-206 | Fetches with `since_id` = the old `last_mention_id`. The replies and cursor are those of `Run`, or none when the fetch fails. After a completed batch, `last_mention_time = now`, the state is saved and the timer is set up. A raising generate leaves the moved cursor unsaved and no new timer. |
| Bot.WindfarmBot.SearchAndReply | windfarm/bot.py:208-235 | An empty effect list raises before searching, with nothing changed. Otherwise the drawn effect is both the search term and generate's effect. The bot's own statuses are skipped. The cursor, time, save and timer are as in CheckMentions, with the search keys. |

## Left out

- `terminate`, the `Timer` objects (start, cancel, join) and `loop`. These are thread management and a blocking wait. `loop`'s initial timers are `SetupTimer` applied to each enabled task and are not modelled as a separate operation.
- `auth` and `clear`: thin calls into the twitter client library, which is not part of this model. The bot's own screen name, which `auth` obtains, is a parameter of `SearchAndReply`.
- `__enter__`/`__exit__` and scruffy's `State` load and save. This is disk I/O. The loaded state is a constructor argument, and `save()` is modelled by copying `state` into `saved`.
- Logging, including `tweet`'s log line. `tweet` itself is part of `RandomTweet`.
- The `config` argument of `__init__`: when one is passed, `self.config` is never set. The model always takes the configuration as a value.
- Time is an integer number of seconds, not a float. One instant `now` stands for both clock reads of a task run, the one recorded in the state and the one `setup_timer` compares against.
- A range timer is exactly two integers `[lo, hi)`. The model does not cover other list lengths or non-integer timer values.
- Bot.Lookup: assumes scruffy's `State` returns None for a key that was never written, because scruffy is not part of this model.
- `generate`'s `phrases` list is built but never used by the code, and the model only carries it.
- Each status's random draws are inputs chosen in advance. The model does not describe their distribution, only that each lies inside its range.
