/**
 * The `POST /api/polls/:id/vote` handler of the Mongo server: load the poll,
 * refuse a voter already listed, look the option up by its `id` field, then
 * raise the option's count and `totalVotes` and append the voter, in place,
 * and save.
 */
module ServerVote {
  import opened JsValues
  import opened PollSchema

  datatype VoteResponse =
    | Voted(poll: PollDoc)
    | PollNotFound
    | AlreadyVoted
    | OptionNotFound

  /** The HTTP status the handler sends. */
  function Status(r: VoteResponse): (code: int)
    ensures code == 200 <==> r.Voted?
    ensures code == 400 <==> r.AlreadyVoted?
    ensures code == 404 <==> r.PollNotFound? || r.OptionNotFound?
  {
    match r
    case Voted(_) => 200
    case PollNotFound => 404
    case AlreadyVoted => 400
    case OptionNotFound => 404
  }

  /** The `message` of a rejection. */
  function Message(r: VoteResponse): (msg: string)
    requires !r.Voted?
    ensures Status(r) == 400 <==> msg == "Already voted"
    ensures Status(r) == 404 ==> msg == "Poll not found" || msg == "Option not found"
    ensures msg == "Poll not found" <==> r.PollNotFound?
    ensures msg == "Option not found" <==> r.OptionNotFound?
  {
    match r
    case PollNotFound => "Poll not found"
    case AlreadyVoted => "Already voted"
    case OptionNotFound => "Option not found"
  }

  /** Each rejection has its own message, so a client can tell them apart. */
  lemma MessagesDistinguishRejections(a: VoteResponse, b: VoteResponse)
    requires !a.Voted? && !b.Voted?
    requires Message(a) == Message(b)
    ensures a == b
  {
  }

  /** `poll.options.find(opt => opt.id === optionId)`: the first option whose
      `id` field matches. */
  function FindOption(opts: seq<OptionDoc>, optionId: string): (r: Option<nat>)
    ensures r.None? <==> forall j :: 0 <= j < |opts| ==> opts[j].id != optionId
    ensures r.Some? ==>
      && r.value < |opts| && opts[r.value].id == optionId
      && forall j :: 0 <= j < r.value ==> opts[j].id != optionId
  {
    if opts == [] then None
    else if opts[0].id == optionId then Some(0)
    else
      match FindOption(opts[1..], optionId)
      case None => None
      case Some(j) => Some(j + 1)
  }

  /** The three in-place updates of an accepted vote, as a value: option k
      gains one vote, `totalVotes` gains one, the voter is appended. */
  function RecordVote(p: PollDoc, k: nat, voterId: string): (q: PollDoc)
    requires k < |p.options|
    ensures |q.options| == |p.options|
    ensures q.options[k].votes == p.options[k].votes + 1
    ensures forall j :: 0 <= j < |p.options| && j != k ==> q.options[j] == p.options[j]
    ensures q.options[k] == p.options[k].(votes := q.options[k].votes)
    ensures q.totalVotes == p.totalVotes + 1
    ensures q.voters == p.voters + [voterId]
    ensures q == p.(options := q.options, totalVotes := q.totalVotes, voters := q.voters)
  {
    var option := p.options[k];
    p.(options := p.options[k := option.(votes := option.votes + 1)],
       totalVotes := p.totalVotes + 1,
       voters := p.voters + [voterId])
  }

  /** What one request does: the response and the collection afterwards.
      The checks run in a fixed order (poll, then voter, then option) and
      `active` is not among them. */
  function VoteOutcome(docs: seq<PollDoc>, pollId: string, optionId: string, voterId: string)
    : (out: (VoteResponse, seq<PollDoc>))
    ensures IndexOfPoll(docs, pollId).None? ==> out == (PollNotFound, docs)
    ensures IndexOfPoll(docs, pollId).Some? ==>
      var i := IndexOfPoll(docs, pollId).value;
      && (voterId in docs[i].voters ==> out == (AlreadyVoted, docs))
      && (voterId !in docs[i].voters && FindOption(docs[i].options, optionId).None? ==>
            out == (OptionNotFound, docs))
      && (voterId !in docs[i].voters && FindOption(docs[i].options, optionId).Some? ==>
            var q := RecordVote(docs[i], FindOption(docs[i].options, optionId).value, voterId);
            out == (Voted(q), docs[i := q]))
  {
    match IndexOfPoll(docs, pollId)
    case None => (PollNotFound, docs)
    case Some(i) =>
      if voterId in docs[i].voters then (AlreadyVoted, docs)
      else
        match FindOption(docs[i].options, optionId)
        case None => (OptionNotFound, docs)
        case Some(k) =>
          var q := RecordVote(docs[i], k, voterId);
          (Voted(q), docs[i := q])
  }

  /** The handler itself, mutating the loaded document and saving it. */
  method CastVote(store: PollCollection, pollId: string, optionId: string, voterId: string)
    returns (r: VoteResponse)
    modifies store
    ensures (r, store.docs) == VoteOutcome(old(store.docs), pollId, optionId, voterId)
  {
    var found := IndexOfPoll(store.docs, pollId);
    if found.None? {
      return PollNotFound;
    }
    var i := found.value;
    var poll := store.docs[i];
    if voterId in poll.voters {
      return AlreadyVoted;
    }
    var k := FindOption(poll.options, optionId);
    if k.None? {
      return OptionNotFound;
    }
    var option := poll.options[k.value];
    option := option.(votes := option.votes + 1);
    poll := poll.(options := poll.options[k.value := option]);
    poll := poll.(totalVotes := poll.totalVotes + 1);
    poll := poll.(voters := poll.voters + [voterId]);
    store.Save(i, poll);
    r := Voted(poll);
  }

  // ---------------------------------------------------------------------
  // Properties of a call

  /** A rejected request leaves the collection as it was. */
  lemma RejectionChangesNothing(docs: seq<PollDoc>, pollId: string, optionId: string, voterId: string)
    requires !VoteOutcome(docs, pollId, optionId, voterId).0.Voted?
    ensures VoteOutcome(docs, pollId, optionId, voterId).1 == docs
  {
  }

  /** A voter already listed is turned away before the option is looked up,
      so a repeat voter naming an unknown option still gets "Already voted". */
  lemma RepeatVoterRejectedBeforeOptionCheck(docs: seq<PollDoc>, pollId: string, optionId: string, voterId: string)
    requires IndexOfPoll(docs, pollId).Some?
    requires voterId in docs[IndexOfPoll(docs, pollId).value].voters
    ensures VoteOutcome(docs, pollId, optionId, voterId) == (AlreadyVoted, docs)
  {
  }

  /** An accepted vote changes only the poll it names. */
  lemma VoteTouchesOnlyItsPoll(docs: seq<PollDoc>, pollId: string, optionId: string, voterId: string)
    ensures |VoteOutcome(docs, pollId, optionId, voterId).1| == |docs|
    ensures forall j :: 0 <= j < |docs| && docs[j].pid != pollId ==>
      VoteOutcome(docs, pollId, optionId, voterId).1[j] == docs[j]
  {
  }

  /** An accepted vote keeps both tally invariants of the poll it changes. */
  lemma RecordVoteKeepsTallies(p: PollDoc, k: nat, voterId: string)
    requires k < |p.options|
    requires TalliesConsistent(p)
    ensures TalliesConsistent(RecordVote(p, k, voterId))
  {
    SumVotesReplace(p.options, k, p.options[k].(votes := p.options[k].votes + 1));
  }

  /** Whatever the request, every poll that satisfied the tally invariants
      before still satisfies them afterwards. */
  lemma VoteKeepsTallies(docs: seq<PollDoc>, pollId: string, optionId: string, voterId: string)
    ensures forall j :: 0 <= j < |docs| && TalliesConsistent(docs[j]) ==>
      TalliesConsistent(VoteOutcome(docs, pollId, optionId, voterId).1[j])
  {
    var found := IndexOfPoll(docs, pollId);
    if found.Some? && voterId !in docs[found.value].voters {
      var k := FindOption(docs[found.value].options, optionId);
      if k.Some? && TalliesConsistent(docs[found.value]) {
        RecordVoteKeepsTallies(docs[found.value], k.value, voterId);
      }
    }
  }

  /** Whatever the request, no voter list gains a duplicate. */
  lemma VoteKeepsVotersUnique(docs: seq<PollDoc>, pollId: string, optionId: string, voterId: string)
    ensures forall j :: 0 <= j < |docs| && VotersUnique(docs[j]) ==>
      VotersUnique(VoteOutcome(docs, pollId, optionId, voterId).1[j])
  {
    var found := IndexOfPoll(docs, pollId);
    if found.Some? && voterId !in docs[found.value].voters && VotersUnique(docs[found.value]) {
      AppendFreshKeepsNoDuplicates(docs[found.value].voters, voterId);
    }
  }

  /** The `active` flag is never consulted: a closed poll takes a vote just
      like an open one. */
  lemma ClosedPollAcceptsVote(docs: seq<PollDoc>, pollId: string, optionId: string, voterId: string)
    requires IndexOfPoll(docs, pollId).Some?
    requires !docs[IndexOfPoll(docs, pollId).value].active
    requires voterId !in docs[IndexOfPoll(docs, pollId).value].voters
    requires FindOption(docs[IndexOfPoll(docs, pollId).value].options, optionId).Some?
    ensures VoteOutcome(docs, pollId, optionId, voterId).0.Voted?
    ensures !VoteOutcome(docs, pollId, optionId, voterId).0.poll.active
  {
  }

  /** The same voter can be counted at most once per poll: once accepted, a
      second request by that voter on that poll is refused. */
  lemma SecondVoteRefused(docs: seq<PollDoc>, pollId: string, optionId: string, otherOption: string, voterId: string)
    requires VoteOutcome(docs, pollId, optionId, voterId).0.Voted?
    ensures VoteOutcome(VoteOutcome(docs, pollId, optionId, voterId).1, pollId, otherOption, voterId).0 == AlreadyVoted
  {
    var i := IndexOfPoll(docs, pollId).value;
    var after := VoteOutcome(docs, pollId, optionId, voterId).1;
    assert IndexOfPoll(after, pollId) == Some(i) by {
      assert forall j :: 0 <= j < |docs| ==> after[j].pid == docs[j].pid;
    }
  }
}
