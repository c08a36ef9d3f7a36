/**
  What the batch reply loops of check_mentions and search_and_reply do,
  stated as functions over the fetched statuses. The loops themselves are
  methods of Bot.WindfarmBot proved against `Run`.
*/
module Replies {
  import opened Outcomes
  import opened Generation

  /** A fetched status: its platform id and its author's screen name. */
  datatype Status = Status(id: int, screenName: string)

  /** A posted reply: addressed to `screenName`, carrying `utterance`, answering status `inReplyTo`. */
  datatype Reply = Reply(screenName: string, utterance: string, inReplyTo: int) {
    /** `"@{} {}".format(screen_name, utterance)`: the author's handle, a space, then the utterance. */
    function Text(): (t: string)
      ensures |t| == |screenName| + |utterance| + 2
      ensures t[0] == '@' && t[|screenName| + 1] == ' '
      ensures t[1..|screenName| + 1] == screenName
      ensures t[|screenName| + 2..] == utterance
    {
      var t := "@" + screenName + " " + utterance;
      assert t[1..|screenName| + 1] == screenName;
      t
    }
  }

  /** The arguments of a fetch: search term (none for mentions), page size and the cursor to resume after. */
  datatype Query = Query(term: Option<string>, count: int, sinceId: Option<int>)

  /** A loop's progress: the cursor it has advanced to, the replies that went out, and whether generate raised. */
  datatype Progress = Progress(cursor: Option<int>, posted: seq<Reply>, aborted: bool)

  /** `reversed(s)`: the platform returns newest first, the loops work oldest first. */
  function OldestFirst(s: seq<Status>): (r: seq<Status>)
    ensures |r| == |s|
    ensures forall i :: 0 <= i < |s| ==> r[i] == s[|s| - 1 - i]
  {
    seq(|s|, i requires 0 <= i < |s| => s[|s| - 1 - i])
  }

  /** The search loop skips statuses written by the bot's own account; the mentions loop skips nothing. */
  predicate Answered(st: Status, skip: Option<string>): (b: bool)
    ensures skip.None? ==> b
    ensures skip.Some? ==> (b <==> st.screenName != skip.value)
  {
    skip != Some(st.screenName)
  }

  /** Every draw for a per-status generate call stands for a legal randrange result. */
  predicate DrawsFit(v: Vocabulary, effect: Option<string>, draws: seq<Draw>) {
    forall k :: 0 <= k < |draws| ==> Fits(v, None, effect, draws[k])
  }

  /** What generate(effect=effect) returns, or raises, for each status, given that status's draws. */
  function Utterances(v: Vocabulary, effect: Option<string>, draws: seq<Draw>): (r: seq<Result<string>>)
    requires DrawsFit(v, effect, draws)
    ensures |r| == |draws|
    ensures forall k :: 0 <= k < |draws| ==> r[k] == Generate(v, None, effect, true, draws[k])
  {
    seq(|draws|, k requires 0 <= k < |draws| => Generate(v, None, effect, true, draws[k]))
  }

  /** The draw for status `i` fits, and its utterance is what generate returns for it. */
  lemma UtteranceAt(v: Vocabulary, effect: Option<string>, draws: seq<Draw>, i: int)
    requires DrawsFit(v, effect, draws) && 0 <= i < |draws|
    ensures Fits(v, None, effect, draws[i])
    ensures Utterances(v, effect, draws)[i] == Generate(v, None, effect, true, draws[i])
  {
  }

  /**
    One iteration: skip the status, or take its generate outcome (an error
    ends the task), move the cursor to the status, and post the reply unless
    the platform rejects it; a rejected post is only logged.
  */
  function Step(p: Progress, st: Status, utterance: Result<string>, skip: Option<string>,
                postFails: int -> bool): (r: Progress)
    ensures p.aborted || !Answered(st, skip) ==> r == p
    ensures |p.posted| <= |r.posted| <= |p.posted| + 1 && r.posted[..|p.posted|] == p.posted
    ensures |r.posted| == |p.posted| + 1 <==>
      !p.aborted && Answered(st, skip) && utterance.Ok? && !postFails(st.id)
    ensures |r.posted| == |p.posted| + 1 ==> r.posted[|p.posted|] == Reply(st.screenName, utterance.value, st.id)
    ensures r.aborted <==> p.aborted || (Answered(st, skip) && utterance.Err?)
    ensures r.cursor == if !p.aborted && Answered(st, skip) && utterance.Ok? then Some(st.id) else p.cursor
    ensures !p.aborted && Answered(st, skip) && utterance.Ok? ==> r.cursor == Some(st.id)
  {
    if p.aborted || !Answered(st, skip) then p
    else
      match utterance
      case Err(_) => p.(aborted := true)
      case Ok(u) =>
        var sent := if postFails(st.id) then [] else [Reply(st.screenName, u, st.id)];
        Progress(Some(st.id), p.posted + sent, false)
  }

  /** The loop over `items` (oldest first); `utterances[k]` is what generate gives for the k-th. */
  function Run(items: seq<Status>, utterances: seq<Result<string>>, skip: Option<string>,
               postFails: int -> bool): (r: Progress)
    requires |utterances| == |items|
    ensures |r.posted| <= |items|
    decreases |items|
  {
    if items == [] then Progress(None, [], false)
    else
      var n := |items| - 1;
      Step(Run(items[..n], utterances[..n], skip, postFails), items[n], utterances[n], skip, postFails)
  }

  /** One more status processed is one more Step. */
  lemma RunExtends(items: seq<Status>, utterances: seq<Result<string>>, skip: Option<string>,
                   postFails: int -> bool, i: nat)
    requires |utterances| == |items| && i < |items|
    ensures Run(items[..i + 1], utterances[..i + 1], skip, postFails) ==
      Step(Run(items[..i], utterances[..i], skip, postFails), items[i], utterances[i], skip, postFails)
  {
    assert items[..i + 1][..i] == items[..i] && utterances[..i + 1][..i] == utterances[..i];
  }

  /** Once generate has raised, the remaining statuses are not looked at (and all of them is all of them). */
  lemma {:induction false} AbortIsFinal(items: seq<Status>, utterances: seq<Result<string>>, skip: Option<string>,
                                        postFails: int -> bool, m: nat)
    requires |utterances| == |items| && m <= |items|
    requires m == |items| || Run(items[..m], utterances[..m], skip, postFails).aborted
    ensures Run(items, utterances, skip, postFails) == Run(items[..m], utterances[..m], skip, postFails)
    decreases |items| - m
  {
    if m == |items| {
      assert items[..m] == items && utterances[..m] == utterances;
    } else {
      var n := |items| - 1;
      assert items[..n][..m] == items[..m] && utterances[..n][..m] == utterances[..m];
      AbortIsFinal(items[..n], utterances[..n], skip, postFails, m);
    }
  }

  /**
    When generate raises for the status at position `m`, the cursor stays
    where the statuses before it had moved it.
  */
  lemma AbortKeepsCursor(items: seq<Status>, utterances: seq<Result<string>>, skip: Option<string>,
                         postFails: int -> bool, m: nat)
    requires |utterances| == |items| && m < |items|
    requires !Run(items[..m], utterances[..m], skip, postFails).aborted
    requires Answered(items[m], skip) && utterances[m].Err?
    ensures Run(items, utterances, skip, postFails).aborted
    ensures Run(items, utterances, skip, postFails).cursor == Run(items[..m], utterances[..m], skip, postFails).cursor
  {
    RunExtends(items, utterances, skip, postFails, m);
    AbortIsFinal(items, utterances, skip, postFails, m + 1);
  }

  /** The task is aborted exactly when generate raises for some answered status. */
  lemma {:induction false} RunAbortsIff(items: seq<Status>, utterances: seq<Result<string>>, skip: Option<string>,
                                        postFails: int -> bool)
    requires |utterances| == |items|
    ensures Run(items, utterances, skip, postFails).aborted <==>
      exists k :: 0 <= k < |items| && Answered(items[k], skip) && utterances[k].Err?
  {
    if items != [] {
      var n := |items| - 1;
      RunAbortsIff(items[..n], utterances[..n], skip, postFails);
      assert forall k :: 0 <= k < n ==> items[..n][k] == items[k] && utterances[..n][k] == utterances[k];
    }
  }

  /** Status k is the last one, in processing order, that the loop answers. */
  predicate LastAnswered(items: seq<Status>, skip: Option<string>, k: int) {
    && 0 <= k < |items|
    && Answered(items[k], skip)
    && forall j :: k < j < |items| ==> !Answered(items[j], skip)
  }

  /**
    After a loop that ran to the end, the cursor is the id of the last answered
    status, or unchanged (None) when every status was skipped.
  */
  lemma {:induction false} RunCursor(items: seq<Status>, utterances: seq<Result<string>>, skip: Option<string>,
                                     postFails: int -> bool)
    requires |utterances| == |items|
    requires !Run(items, utterances, skip, postFails).aborted
    ensures Run(items, utterances, skip, postFails).cursor.None? <==>
      forall k :: 0 <= k < |items| ==> !Answered(items[k], skip)
    ensures Run(items, utterances, skip, postFails).cursor.Some? ==>
      exists k :: LastAnswered(items, skip, k) && Run(items, utterances, skip, postFails).cursor == Some(items[k].id)
  {
    if items != [] {
      var n := |items| - 1;
      var p := Run(items[..n], utterances[..n], skip, postFails);
      RunCursor(items[..n], utterances[..n], skip, postFails);
      if Answered(items[n], skip) {
        assert LastAnswered(items, skip, n);
      } else if p.cursor.Some? {
        var k :| LastAnswered(items[..n], skip, k) && p.cursor == Some(items[..n][k].id);
        assert LastAnswered(items, skip, k);
      } else {
        forall k | 0 <= k < |items| ensures !Answered(items[k], skip) {
          if k < n { assert items[..n][k] == items[k]; }
        }
      }
    }
  }

  /** `r` is the reply to `st` carrying the utterance generate gave for it. */
  predicate RepliesTo(r: Reply, st: Status, utterance: Result<string>) {
    utterance.Ok? && r == Reply(st.screenName, utterance.value, st.id)
  }

  /**
    Each of `posted` answers an answered status whose post the platform
    accepted, with "@author " followed by the utterance generated for it.
  */
  predicate PostedSound(items: seq<Status>, utterances: seq<Result<string>>, skip: Option<string>,
                        postFails: int -> bool, posted: seq<Reply>)
    requires |utterances| == |items|
  {
    forall i {:trigger posted[i]} :: 0 <= i < |posted| ==>
      !postFails(posted[i].inReplyTo) &&
      exists k :: 0 <= k < |items| && Answered(items[k], skip) && RepliesTo(posted[i], items[k], utterances[k])
  }

  /** Every reply the loop posts answers an answered status whose post the platform accepted. */
  lemma {:induction false} PostedAreAccepted(items: seq<Status>, utterances: seq<Result<string>>, skip: Option<string>,
                                             postFails: int -> bool)
    requires |utterances| == |items|
    ensures PostedSound(items, utterances, skip, postFails, Run(items, utterances, skip, postFails).posted)
  {
    if items != [] {
      var n := |items| - 1;
      var q := Run(items[..n], utterances[..n], skip, postFails);
      var p := Run(items, utterances, skip, postFails);
      PostedAreAccepted(items[..n], utterances[..n], skip, postFails);
      forall i | 0 <= i < |q.posted|
        ensures !postFails(q.posted[i].inReplyTo)
        ensures exists k :: 0 <= k < |items| && Answered(items[k], skip) && RepliesTo(q.posted[i], items[k], utterances[k])
      {
        var its, uts := items[..n], utterances[..n];
        assert PostedSound(its, uts, skip, postFails, q.posted);
        assert 0 <= i < |q.posted|;
        assert !postFails(q.posted[i].inReplyTo);
        assert exists k :: 0 <= k < |its| && Answered(its[k], skip) && RepliesTo(q.posted[i], its[k], uts[k]);
        var k :| 0 <= k < |its| && Answered(its[k], skip) && RepliesTo(q.posted[i], its[k], uts[k]);
        assert items[..n][k] == items[k] && utterances[..n][k] == utterances[k];
      }
      if !q.aborted && Answered(items[n], skip) && utterances[n].Ok? {
        forall i | 0 <= i < |p.posted|
          ensures !postFails(p.posted[i].inReplyTo)
          ensures exists k :: 0 <= k < |items| && Answered(items[k], skip) && RepliesTo(p.posted[i], items[k], utterances[k])
        {
          if i < |q.posted| {
            assert p.posted[i] == q.posted[i];
          } else {
            assert RepliesTo(p.posted[i], items[n], utterances[n]);
          }
        }
      } else {
        assert p.posted == q.posted;
      }
    }
  }

  /** When the loop ran to the end, every answered status whose post the platform accepted got a reply. */
  lemma {:induction false} AcceptedArePosted(items: seq<Status>, utterances: seq<Result<string>>, skip: Option<string>,
                                             postFails: int -> bool)
    requires |utterances| == |items|
    ensures var p := Run(items, utterances, skip, postFails);
      !p.aborted ==> forall k :: 0 <= k < |items| && Answered(items[k], skip) && !postFails(items[k].id) ==>
        exists i :: 0 <= i < |p.posted| && p.posted[i].inReplyTo == items[k].id
  {
    if items != [] {
      var n := |items| - 1;
      var q := Run(items[..n], utterances[..n], skip, postFails);
      var p := Run(items, utterances, skip, postFails);
      AcceptedArePosted(items[..n], utterances[..n], skip, postFails);
      if !p.aborted {
        assert !q.aborted;
        assert p.posted[..|q.posted|] == q.posted;
        forall k | 0 <= k < |items| && Answered(items[k], skip) && !postFails(items[k].id)
          ensures exists i :: 0 <= i < |p.posted| && p.posted[i].inReplyTo == items[k].id
        {
          if k < n {
            assert items[..n][k] == items[k];
            var i :| 0 <= i < |q.posted| && q.posted[i].inReplyTo == items[k].id;
            assert p.posted[i] == q.posted[i];
          } else {
            assert p.posted[|q.posted|].inReplyTo == items[k].id;
          }
        }
      }
    }
  }

  /** Mentions: after a batch that ran to the end, the cursor is the id of the newest fetched status. */
  lemma NewestMentionIsCursor(statuses: seq<Status>, utterances: seq<Result<string>>, postFails: int -> bool)
    requires |utterances| == |statuses| && |statuses| > 0
    requires !Run(OldestFirst(statuses), utterances, None, postFails).aborted
    ensures Run(OldestFirst(statuses), utterances, None, postFails).cursor == Some(statuses[0].id)
  {
    var items := OldestFirst(statuses);
    assert items[|items| - 1] == statuses[0];
  }

  /** An empty batch leaves the cursor where it was and posts nothing. */
  lemma EmptyBatch(skip: Option<string>, postFails: int -> bool)
    ensures Run([], [], skip, postFails) == Progress(None, [], false)
  {
  }

  /**
    Two mentions, ids 10 and 11 in processing order; the reply to 10 is
    rejected and the reply to 11 accepted: the cursor ends at 11 and exactly
    one reply, to 11, goes out.
  */
  lemma RejectedReplyDoesNotStopBatch(a: string, b: string, utterances: seq<Result<string>>, postFails: int -> bool)
    requires |utterances| == 2 && utterances[0].Ok? && utterances[1].Ok?
    requires postFails(10) && !postFails(11)
    ensures var p := Run([Status(10, a), Status(11, b)], utterances, None, postFails);
      p.cursor == Some(11) && |p.posted| == 1 && p.posted[0].inReplyTo == 11 && !p.aborted
  {
    var items := [Status(10, a), Status(11, b)];
    assert items[..1][..0] == [] && utterances[..1][..0] == [];
    assert Run(items[..1], utterances[..1], None, postFails) == Progress(Some(10), [], false);
  }
}
