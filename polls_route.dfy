/**
 * The Express router for polls: `POST /:id/vote`, which raises an option's
 * count, one of its sentiment counters and `totalVotes` and then broadcasts
 * the new tallies, and `DELETE /:id`. Unlike the server's own handler it
 * neither records nor checks voters, and it looks the option up with
 * mongoose's `options.id(...)`, which matches the subdocument `_id`.
 */
module PollsRoute {
  import opened JsValues
  import opened PollSchema

  /** The `voteUpdate` event sent to the poll's room. */
  datatype VoteUpdate = VoteUpdate(
    pollId: string,
    optionId: string,
    votes: int,
    sentiments: map<string, Num>,
    totalVotes: int)

  datatype RouteVoteResponse =
    | Recorded(update: VoteUpdate)
    | PollNotFound
    | OptionNotFound
    | BadRequest(message: string)

  function VoteStatus(r: RouteVoteResponse): (code: int)
    ensures code == 200 <==> r.Recorded?
    ensures code == 400 <==> r.BadRequest?
    ensures code == 404 <==> r.PollNotFound? || r.OptionNotFound?
  {
    match r
    case Recorded(_) => 200
    case PollNotFound => 404
    case OptionNotFound => 404
    case BadRequest(_) => 400
  }

  /** The message of the TypeError JavaScript raises when a property is read
      from `undefined`. */
  function ReadOfUndefined(property: string): string {
    "Cannot read properties of undefined (reading '" + property + "')"
  }

  /** `poll.options.id(optionId)`: the first option whose `_id` matches. */
  function FindSubdocument(opts: seq<OptionDoc>, optionId: string): (r: Option<nat>)
    ensures r.None? <==> forall j :: 0 <= j < |opts| ==> opts[j].oid != optionId
    ensures r.Some? ==>
      && r.value < |opts| && opts[r.value].oid == optionId
      && forall j :: 0 <= j < r.value ==> opts[j].oid != optionId
  {
    if opts == [] then None
    else if opts[0].oid == optionId then Some(0)
    else
      match FindSubdocument(opts[1..], optionId)
      case None => None
      case Some(j) => Some(j + 1)
  }

  /** `sentiments[key] += 1`: a counter that is not there becomes NaN. */
  function BumpSentiment(m: map<string, Num>, key: string): (r: map<string, Num>)
    ensures r.Keys == m.Keys + {key}
    ensures forall other :: other in m && other != key ==> r[other] == m[other]
    ensures key in m && m[key].Finite? ==> r[key] == Finite(m[key].n + 1)
    ensures key in m ==> r[key] == m[key].Plus1()
    ensures key !in m ==> r[key] == NaN
  {
    m[key := if key in m then m[key].Plus1() else NaN]
  }

  /** The document after an accepted vote on option k. */
  function RouteRecord(p: PollDoc, k: nat, sentiment: string): (q: PollDoc)
    requires k < |p.options| && p.options[k].sentiments.Some?
    ensures |q.options| == |p.options|
    ensures q.options[k].votes == p.options[k].votes + 1
    ensures q.options[k].sentiments == Some(BumpSentiment(p.options[k].sentiments.value, sentiment))
    ensures q.options[k] == p.options[k].(votes := q.options[k].votes, sentiments := q.options[k].sentiments)
    ensures forall j :: 0 <= j < |p.options| && j != k ==> q.options[j] == p.options[j]
    ensures q == p.(options := q.options, totalVotes := p.totalVotes + 1)
  {
    var option := p.options[k];
    var option' := option.(votes := option.votes + 1,
                           sentiments := Some(BumpSentiment(option.sentiments.value, sentiment)));
    p.(options := p.options[k := option'], totalVotes := p.totalVotes + 1)
  }

  /** What one vote request does. `sentiment` is the body's field as a
      property key; `ioRegistered` says whether the app has a Socket.IO
      server registered under 'io'. */
  function RouteVoteOutcome(docs: seq<PollDoc>, pollId: string, optionId: string, sentiment: string, ioRegistered: bool)
    : (out: (RouteVoteResponse, seq<PollDoc>))
    ensures IndexOfPoll(docs, pollId).None? ==> out == (PollNotFound, docs)
    ensures IndexOfPoll(docs, pollId).Some? ==>
      var i := IndexOfPoll(docs, pollId).value;
      var k := FindSubdocument(docs[i].options, optionId);
      && (k.None? ==> out == (OptionNotFound, docs))
      && (k.Some? && docs[i].options[k.value].sentiments.None? ==>
            out == (BadRequest(ReadOfUndefined(sentiment)), docs))
      && (k.Some? && docs[i].options[k.value].sentiments.Some? ==>
            var q := RouteRecord(docs[i], k.value, sentiment);
            && out.1 == docs[i := q]
            && (ioRegistered ==>
                  out.0 == Recorded(VoteUpdate(pollId, optionId, q.options[k.value].votes,
                                               q.options[k.value].sentiments.value, q.totalVotes)))
            && (!ioRegistered ==> out.0 == BadRequest(ReadOfUndefined("to"))))
  {
    match IndexOfPoll(docs, pollId)
    case None => (PollNotFound, docs)
    case Some(i) =>
      match FindSubdocument(docs[i].options, optionId)
      case None => (OptionNotFound, docs)
      case Some(k) =>
        if docs[i].options[k].sentiments.None? then
          (BadRequest(ReadOfUndefined(sentiment)), docs)
        else
          var q := RouteRecord(docs[i], k, sentiment);
          var update := VoteUpdate(pollId, optionId, q.options[k].votes,
                                   q.options[k].sentiments.value, q.totalVotes);
          (if ioRegistered then Recorded(update) else BadRequest(ReadOfUndefined("to")), docs[i := q])
  }

  /** The route handler. The increments happen on the loaded document; a
      TypeError thrown before `save` discards them, one thrown after `save`
      (no Socket.IO server) leaves them stored but still answers 400.
      `lastActive` is not a schema path, so assigning it stores nothing. */
  method Vote(store: PollCollection, pollId: string, optionId: string, sentiment: string, ioRegistered: bool)
    returns (r: RouteVoteResponse)
    modifies store
    ensures (r, store.docs) == RouteVoteOutcome(old(store.docs), pollId, optionId, sentiment, ioRegistered)
  {
    var found := IndexOfPoll(store.docs, pollId);
    if found.None? {
      return PollNotFound;
    }
    var i := found.value;
    var poll := store.docs[i];
    var k := FindSubdocument(poll.options, optionId);
    if k.None? {
      return OptionNotFound;
    }
    var option := poll.options[k.value];
    option := option.(votes := option.votes + 1);
    if option.sentiments.None? {
      return BadRequest(ReadOfUndefined(sentiment));
    }
    option := option.(sentiments := Some(BumpSentiment(option.sentiments.value, sentiment)));
    poll := poll.(options := poll.options[k.value := option]);
    poll := poll.(totalVotes := poll.totalVotes + 1);
    store.Save(i, poll);
    if !ioRegistered {
      return BadRequest(ReadOfUndefined("to"));
    }
    r := Recorded(VoteUpdate(pollId, optionId, option.votes, option.sentiments.value, poll.totalVotes));
  }

  // ---------------------------------------------------------------------
  // Delete

  datatype DeleteResponse = Deleted | DeleteNotFound

  function DeleteStatus(r: DeleteResponse): (code: int)
    ensures code == 404 <==> r.DeleteNotFound?
    ensures code == 200 <==> r.Deleted?
  {
    if r.Deleted? then 200 else 404
  }

  /** `DELETE /:id`: an unknown id is answered 404 and nothing is removed;
      otherwise exactly the poll with that id is removed. */
  function DeleteOutcome(docs: seq<PollDoc>, pollId: string): (out: (DeleteResponse, seq<PollDoc>))
    ensures out.0 == DeleteNotFound <==> forall j :: 0 <= j < |docs| ==> docs[j].pid != pollId
    ensures out.0 == DeleteNotFound ==> out.1 == docs
    ensures out.0 == Deleted ==> |out.1| == |docs| - 1 && multiset(out.1) + multiset{docs[IndexOfPoll(docs, pollId).value]} == multiset(docs)
  {
    match IndexOfPoll(docs, pollId)
    case None => (DeleteNotFound, docs)
    case Some(i) =>
      assert docs == docs[..i] + [docs[i]] + docs[i + 1..];
      (Deleted, docs[..i] + docs[i + 1..])
  }

  method Delete(store: PollCollection, pollId: string) returns (r: DeleteResponse)
    modifies store
    ensures (r, store.docs) == DeleteOutcome(old(store.docs), pollId)
  {
    var found := IndexOfPoll(store.docs, pollId);
    if found.None? {
      return DeleteNotFound;
    }
    store.Remove(found.value);
    r := Deleted;
  }

  // ---------------------------------------------------------------------
  // Properties

  /** An accepted vote raises the option's count, its named sentiment counter
      (when that counter is a number) and `totalVotes` by exactly one, and the
      voter list is left alone. */
  lemma AcceptedVoteIncrements(docs: seq<PollDoc>, pollId: string, optionId: string, sentiment: string, ioRegistered: bool)
    requires IndexOfPoll(docs, pollId).Some?
    requires FindSubdocument(docs[IndexOfPoll(docs, pollId).value].options, optionId).Some?
    requires docs[IndexOfPoll(docs, pollId).value].options[FindSubdocument(docs[IndexOfPoll(docs, pollId).value].options, optionId).value].sentiments.Some?
    ensures
      var i := IndexOfPoll(docs, pollId).value;
      var k := FindSubdocument(docs[i].options, optionId).value;
      var before := docs[i];
      var after := RouteVoteOutcome(docs, pollId, optionId, sentiment, ioRegistered).1[i];
      var s := before.options[k].sentiments.value;
      && after.options[k].votes == before.options[k].votes + 1
      && after.totalVotes == before.totalVotes + 1
      && after.voters == before.voters
      && (sentiment in s && s[sentiment].Finite? ==>
            after.options[k].sentiments.value[sentiment] == Finite(s[sentiment].n + 1))
  {
  }

  /** The route keeps `totalVotes` equal to the sum of the option counts, but
      since it never appends a voter, a poll that also had
      `totalVotes == |voters|` loses that agreement with the first vote. */
  lemma RouteVoteBreaksVoterCount(docs: seq<PollDoc>, pollId: string, optionId: string, sentiment: string, ioRegistered: bool)
    requires IndexOfPoll(docs, pollId).Some?
    requires TalliesConsistent(docs[IndexOfPoll(docs, pollId).value])
    requires RouteVoteOutcome(docs, pollId, optionId, sentiment, ioRegistered).1 != docs
    ensures
      var after := RouteVoteOutcome(docs, pollId, optionId, sentiment, ioRegistered).1[IndexOfPoll(docs, pollId).value];
      && after.totalVotes == SumVotes(after.options)
      && after.totalVotes == |after.voters| + 1
      && !TalliesConsistent(after)
  {
    var i := IndexOfPoll(docs, pollId).value;
    var p := docs[i];
    var found := FindSubdocument(p.options, optionId);
    assert found.Some? && p.options[found.value].sentiments.Some?;
    var k := found.value;
    var q := RouteRecord(p, k, sentiment);
    assert RouteVoteOutcome(docs, pollId, optionId, sentiment, ioRegistered).1[i] == q;
    assert q.options == p.options[k := q.options[k]];
    SumVotesReplace(p.options, k, q.options[k]);
  }

  /** A poll whose options came from the schema has no `sentiments`, so every
      vote on it is answered 400 and nothing is stored. */
  lemma SchemaDocumentRejectsRouteVote(docs: seq<PollDoc>, pollId: string, optionId: string, sentiment: string, ioRegistered: bool)
    requires IndexOfPoll(docs, pollId).Some?
    requires forall o :: o in docs[IndexOfPoll(docs, pollId).value].options ==> o.sentiments.None?
    ensures RouteVoteOutcome(docs, pollId, optionId, sentiment, ioRegistered).1 == docs
    ensures VoteStatus(RouteVoteOutcome(docs, pollId, optionId, sentiment, ioRegistered).0) != 200
  {
  }

  /** `run` lists the stored documents before a series of identical vote
      requests and after each of them. */
  predicate IsVoteRun(run: seq<seq<PollDoc>>, pollId: string, optionId: string, sentiment: string, ioRegistered: bool) {
    forall t :: 0 <= t < |run| - 1 ==> run[t + 1] == RouteVoteOutcome(run[t], pollId, optionId, sentiment, ioRegistered).1
  }

  /** The request reaches the increments: poll i and its option k exist and
      the option tracks sentiments. */
  predicate Reaches(docs: seq<PollDoc>, pollId: string, optionId: string, i: nat, k: nat) {
    && i < |docs| && docs[i].pid == pollId
    && (forall j :: 0 <= j < i ==> docs[j].pid != pollId)
    && k < |docs[i].options| && docs[i].options[k].oid == optionId
    && (forall j :: 0 <= j < k ==> docs[i].options[j].oid != optionId)
    && docs[i].options[k].sentiments.Some?
  }

  /** `after` is `before` with poll i's option k and total n votes further
      on, both still reachable, and voters and `active` untouched. */
  predicate Advanced(before: seq<PollDoc>, after: seq<PollDoc>, pollId: string, optionId: string, i: nat, k: nat, n: nat) {
    && i < |before| && k < |before[i].options|
    && |after| == |before|
    && Reaches(after, pollId, optionId, i, k)
    && after[i].options[k].votes == before[i].options[k].votes + n
    && after[i].totalVotes == before[i].totalVotes + n
    && after[i].voters == before[i].voters
    && after[i].active == before[i].active
  }

  /** One vote keeps the poll and option where they were, still reachable,
      one vote and one total further on. */
  lemma RouteVoteStep(docs: seq<PollDoc>, pollId: string, optionId: string, sentiment: string, ioRegistered: bool, i: nat, k: nat)
    requires Reaches(docs, pollId, optionId, i, k)
    ensures Advanced(docs, RouteVoteOutcome(docs, pollId, optionId, sentiment, ioRegistered).1, pollId, optionId, i, k, 1)
  {
    var after := RouteVoteOutcome(docs, pollId, optionId, sentiment, ioRegistered).1;
    assert after == docs[i := RouteRecord(docs[i], k, sentiment)];
    assert forall j :: 0 <= j < |docs| ==> after[j].pid == docs[j].pid;
    assert forall j :: 0 <= j < |docs[i].options| ==> after[i].options[j].oid == docs[i].options[j].oid;
  }

  /** Advancing by m and then by n is advancing by m + n. */
  lemma AdvancedTrans(docs: seq<PollDoc>, mid: seq<PollDoc>, after: seq<PollDoc>, pollId: string, optionId: string,
                      i: nat, k: nat, m: nat, n: nat)
    requires Advanced(docs, mid, pollId, optionId, i, k, m)
    requires Advanced(mid, after, pollId, optionId, i, k, n)
    ensures Advanced(docs, after, pollId, optionId, i, k, m + n)
  {
  }

  /** There is no voter and no `active` check: over a series of n identical
      requests for an option that tracks sentiments, its count and
      `totalVotes` rise by n. */
  lemma {:induction false} RepeatedVotesAllCount(run: seq<seq<PollDoc>>, pollId: string, optionId: string, sentiment: string,
                                                 ioRegistered: bool, i: nat, k: nat)
    requires |run| > 0 && IsVoteRun(run, pollId, optionId, sentiment, ioRegistered)
    requires Reaches(run[0], pollId, optionId, i, k)
    ensures Advanced(run[0], run[|run| - 1], pollId, optionId, i, k, |run| - 1)
  {
    if |run| > 1 {
      assert run[1] == RouteVoteOutcome(run[0], pollId, optionId, sentiment, ioRegistered).1;
      RouteVoteStep(run[0], pollId, optionId, sentiment, ioRegistered, i, k);
      var rest := run[1..];
      assert IsVoteRun(rest, pollId, optionId, sentiment, ioRegistered) by {
        forall t | 0 <= t < |rest| - 1
          ensures rest[t + 1] == RouteVoteOutcome(rest[t], pollId, optionId, sentiment, ioRegistered).1
        {
          assert rest[t] == run[t + 1] && rest[t + 1] == run[t + 2];
        }
      }
      RepeatedVotesAllCount(rest, pollId, optionId, sentiment, ioRegistered, i, k);
      AdvancedTrans(run[0], run[1], run[|run| - 1], pollId, optionId, i, k, 1, |run| - 2);
    }
  }
}
