/**
  WindfarmBot: the bot object, its cursor state and its three periodic
  tasks. The platform is represented by the tasks' inputs (the fetched
  statuses, whether the fetch failed, which posts the platform rejects),
  the clock by `now`, and the random module by explicit draws.
*/
module Bot {
  import opened Outcomes
  import opened Settings
  import opened Scheduling
  import opened Generation
  import opened Replies

  // Keys of the persisted state.
  const LastTweetTime: string := "last_tweet_time"
  const LastMentionTime: string := "last_mention_time"
  const LastMentionId: string := "last_mention_id"
  const LastSearchTime: string := "last_search_time"
  const LastSearchId: string := "last_search_id"

  /** `self.state[key]`, with a key never written reading as None. */
  function Lookup(state: map<string, int>, key: string): (r: Option<int>)
    ensures r.Some? <==> key in state
    ensures r.Some? ==> r.value == state[key]
  {
    if key in state then Some(state[key]) else None
  }

  /** The state after a reply loop: the cursor key holds the loop's cursor if the loop moved it. */
  function Advance(state: map<string, int>, key: string, cursor: Option<int>): (r: map<string, int>)
    ensures cursor.None? ==> r == state
    ensures cursor.Some? ==> Lookup(r, key) == cursor
    ensures forall k :: k != key ==> Lookup(r, k) == Lookup(state, k)
  {
    if cursor.Some? then state[key := cursor.value] else state
  }

  /** Moving the cursor again overwrites where it was moved before. */
  lemma AdvanceAgain(state: map<string, int>, key: string, cursor: Option<int>, id: int)
    ensures Advance(state, key, cursor)[key := id] == Advance(state, key, Some(id))
  {
  }

  class WindfarmBot {
    const config: Config
    const vocab: Vocabulary
    /** The cursor state, `self.state`. */
    var state: map<string, int>
    /** What the last `self.state.save()` wrote to disk. */
    var saved: map<string, int>
    /** The delay of the timer each task last set up; None before the first. */
    var tweetTimer: Option<int>
    var mentionTimer: Option<int>
    var searchTimer: Option<int>

    /** The body of __init__ once the credential check has passed; `stored` is the loaded state. */
    constructor (cfg: Config, stored: map<string, int>)
      requires Construct(cfg).Ok?
      ensures config == cfg && vocab == Construct(cfg).value
      ensures state == stored && saved == stored
      ensures tweetTimer.None? && mentionTimer.None? && searchTimer.None?
    {
      config := cfg;
      vocab := Construct(cfg).value;
      state, saved := stored, stored;
      tweetTimer, mentionTimer, searchTimer := None, None, None;
    }

    /**
      The body of the reply loop for one status: a status to answer gets an
      utterance from generate; if generate raises, the task stops; otherwise
      the cursor key is set to the status's id before the reply is posted,
      and a reply the platform rejects is only logged.
    */
    method Answer(p: Progress, status: Status, draw: Draw, skip: Option<string>, effect: Option<string>,
                  postFails: int -> bool, key: string, ghost start: map<string, int>) returns (q: Progress)
      requires !p.aborted && Fits(vocab, None, effect, draw)
      requires state == Advance(start, key, p.cursor)
      modifies this`state
      ensures q == Step(p, status, Generate(vocab, None, effect, true, draw), skip, postFails)
      ensures state == if Answered(status, skip) && Generate(vocab, None, effect, true, draw).Ok?
                       then old(state)[key := status.id] else old(state)
      ensures state == Advance(start, key, q.cursor)
    {
      q := p;
      if Answered(status, skip) {
        var utterance := Generate(vocab, None, effect, true, draw);
        if utterance.Err? {
          // generate raised: not a platform error, so nothing catches it
          q := q.(aborted := true);
        } else {
          AdvanceAgain(start, key, p.cursor, status.id);
          state := state[key := status.id];
          var sent := if postFails(status.id) then [] else [Reply(status.screenName, utterance.value, status.id)];
          q := Progress(Some(status.id), p.posted + sent, false);
        }
      }
    }

    /**
      One pass of the reply loop shared by check_mentions and
      search_and_reply: statuses newest first, walked in reverse.
    */
    method ReplyBatch(statuses: seq<Status>, draws: seq<Draw>, skip: Option<string>, effect: Option<string>,
                      postFails: int -> bool, key: string) returns (p: Progress)
      requires |draws| == |statuses| && DrawsFit(vocab, effect, draws)
      modifies this`state
      ensures p == Run(OldestFirst(statuses), Utterances(vocab, effect, draws), skip, postFails)
      ensures state == Advance(old(state), key, p.cursor)
    {
      ghost var start := state;
      ghost var items := OldestFirst(statuses);
      ghost var us := Utterances(vocab, effect, draws);
      p := Progress(None, [], false);
      var i := 0;
      while i < |statuses| && !p.aborted
        invariant 0 <= i <= |statuses|
        invariant p == Run(items[..i], us[..i], skip, postFails)
        invariant state == Advance(start, key, p.cursor)
      {
        var status := statuses[|statuses| - 1 - i];
        assert status == items[i];
        UtteranceAt(vocab, effect, draws, i);
        p := Answer(p, status, draws[i], skip, effect, postFails, key, start);
        RunExtends(items, us, skip, postFails, i);
        i := i + 1;
      }
      AbortIsFinal(items, us, skip, postFails, i);
    }

    /**
      random_tweet: generate and post an utterance, record the time and set up
      the next timer. Nothing catches a failure here, and the state is not saved.
    */
    method RandomTweet(now: int, draw: Draw, postFails: bool, periodDraw: int)
      returns (tweeted: Option<string>, raised: Option<Failure>)
      requires Fits(vocab, None, None, draw)
      requires DrawFits(config.tweets.timer, periodDraw)
      modifies this`state, this`tweetTimer
      ensures var g := Generate(vocab, None, None, true, draw);
        && (g.Err? ==> raised == Some(EmptyRange))
        && (g.Ok? && postFails ==> raised == Some(TwitterError))
        && (g.Err? || postFails ==> tweeted.None? && state == old(state) && tweetTimer == old(tweetTimer))
        && (g.Ok? && !postFails ==>
              && tweeted == Some(g.value)
              && state == old(state)[LastTweetTime := now]
              && var t := SetupTimer(config.tweets.timer, Some(now), now, periodDraw);
                 && (t.Ok? ==> raised.None? && tweetTimer == Some(t.value))
                 && (t.Err? ==> raised == Some(t.error) && tweetTimer == old(tweetTimer)))
    {
      var g := Generate(vocab, None, None, true, draw);
      if g.Err? {
        tweeted, raised := None, Some(EmptyRange);
        return;
      }
      if postFails {
        tweeted, raised := None, Some(TwitterError);
        return;
      }
      tweeted := Some(g.value);
      state := state[LastTweetTime := now];
      var t := SetupTimer(config.tweets.timer, Lookup(state, LastTweetTime), now, periodDraw);
      if t.Ok? {
        tweetTimer, raised := Some(t.value), None;
      } else {
        raised := Some(t.error);
      }
    }

    /** check_mentions. */
    method CheckMentions(now: int, fetchFailed: bool, statuses: seq<Status>, draws: seq<Draw>,
                         postFails: int -> bool, periodDraw: int)
      returns (query: Query, posted: seq<Reply>, raised: Option<Failure>)
      requires |draws| == |statuses| && DrawsFit(vocab, None, draws)
      requires DrawFits(config.mentions.timer, periodDraw)
      modifies this`state, this`saved, this`mentionTimer
      ensures query == Query(None, config.mentions.count, Lookup(old(state), LastMentionId))
      ensures var p := if fetchFailed then Progress(None, [], false)
                       else Run(OldestFirst(statuses), Utterances(vocab, None, draws), None, postFails);
        && posted == p.posted
        && (p.aborted ==>
              && raised == Some(EmptyRange)
              && state == Advance(old(state), LastMentionId, p.cursor)
              && saved == old(saved) && mentionTimer == old(mentionTimer))
        && (!p.aborted ==>
              && state == Advance(old(state), LastMentionId, p.cursor)[LastMentionTime := now]
              && saved == state
              && var t := SetupTimer(config.mentions.timer, Some(now), now, periodDraw);
                 && (t.Ok? ==> raised.None? && mentionTimer == Some(t.value))
                 && (t.Err? ==> raised == Some(t.error) && mentionTimer == old(mentionTimer)))
    {
      query := Query(None, config.mentions.count, Lookup(state, LastMentionId));
      var p := Progress(None, [], false);
      if !fetchFailed {
        p := ReplyBatch(statuses, draws, None, None, postFails, LastMentionId);
      }
      posted := p.posted;
      if p.aborted {
        raised := Some(EmptyRange);
        return;
      }
      state := state[LastMentionTime := now];
      saved := state;
      var t := SetupTimer(config.mentions.timer, Lookup(state, LastMentionTime), now, periodDraw);
      if t.Ok? {
        mentionTimer, raised := Some(t.value), None;
      } else {
        raised := Some(t.error);
      }
    }

    /** search_and_reply; `ownName` is the screen name the platform authenticated the bot as. */
    method SearchAndReply(now: int, termDraw: nat, fetchFailed: bool, statuses: seq<Status>, draws: seq<Draw>,
                          postFails: int -> bool, ownName: string, periodDraw: int)
      returns (query: Option<Query>, posted: seq<Reply>, raised: Option<Failure>)
      requires |vocab.effects| > 0 ==> termDraw < |vocab.effects|
      requires |draws| == |statuses|
      requires |vocab.effects| > 0 ==> DrawsFit(vocab, Some(vocab.effects[termDraw]), draws)
      requires DrawFits(config.search.timer, periodDraw)
      modifies this`state, this`saved, this`searchTimer
      ensures |vocab.effects| == 0 ==>
        && query.None? && posted == [] && raised == Some(EmptyRange)
        && state == old(state) && saved == old(saved) && searchTimer == old(searchTimer)
      ensures |vocab.effects| > 0 ==>
        var term := vocab.effects[termDraw];
        var p := if fetchFailed then Progress(None, [], false)
                 else Run(OldestFirst(statuses), Utterances(vocab, Some(term), draws), Some(ownName), postFails);
        && query == Some(Query(Some(term), config.search.count, Lookup(old(state), LastSearchId)))
        && posted == p.posted
        && (p.aborted ==>
              && raised == Some(EmptyRange)
              && state == Advance(old(state), LastSearchId, p.cursor)
              && saved == old(saved) && searchTimer == old(searchTimer))
        && (!p.aborted ==>
              && state == Advance(old(state), LastSearchId, p.cursor)[LastSearchTime := now]
              && saved == state
              && var t := SetupTimer(config.search.timer, Some(now), now, periodDraw);
                 && (t.Ok? ==> raised.None? && searchTimer == Some(t.value))
                 && (t.Err? ==> raised == Some(t.error) && searchTimer == old(searchTimer)))
    {
      if |vocab.effects| == 0 {
        // randrange(0, 0) raises before the search is made
        query, posted, raised := None, [], Some(EmptyRange);
        return;
      }
      var term := vocab.effects[termDraw];
      query := Some(Query(Some(term), config.search.count, Lookup(state, LastSearchId)));
      var p := Progress(None, [], false);
      if !fetchFailed {
        p := ReplyBatch(statuses, draws, Some(ownName), Some(term), postFails, LastSearchId);
      }
      posted := p.posted;
      if p.aborted {
        raised := Some(EmptyRange);
        return;
      }
      state := state[LastSearchTime := now];
      saved := state;
      var t := SetupTimer(config.search.timer, Lookup(state, LastSearchTime), now, periodDraw);
      if t.Ok? {
        searchTimer, raised := Some(t.value), None;
      } else {
        raised := Some(t.error);
      }
    }
  }

  /** `WindfarmBot()`: raises ConfigException when a credential is still the placeholder. */
  method NewBot(cfg: Config, stored: map<string, int>) returns (r: Result<WindfarmBot>)
    ensures r.Err? <==> !KeysConfigured(cfg.apiKeys)
    ensures r.Err? ==> r.error == ConfigException
    ensures r.Ok? ==> fresh(r.value) && r.value.config == cfg && Construct(cfg) == Ok(r.value.vocab)
    ensures r.Ok? ==> r.value.state == stored && r.value.saved == stored
    ensures r.Ok? ==> r.value.tweetTimer.None? && r.value.mentionTimer.None? && r.value.searchTimer.None?
  {
    if !KeysConfigured(cfg.apiKeys) {
      return Err(ConfigException);
    }
    var bot := new WindfarmBot(cfg, stored);
    return Ok(bot);
  }
}
