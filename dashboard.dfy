/**
 * The dashboard's figures over the stored poll list: the polls the user
 * created (matched by creator email), the polls the user took part in
 * (never any yet), and the totals shown on the stat cards.
 */
module Dashboard {
  import opened JsValues
  import opened StoredPolls
  import ViewPoll
  import CreatePoll

  /** `poll.creator.email === user?.email`: a signed-out user, or one without
      an email, matches no poll. */
  predicate CreatedBy(p: ClientPoll, user: Option<User>): (b: bool)
    ensures b <==> user.Some? && user.value.email == Some(p.creator.email)
  {
    user.Some? && user.value.email.Some? && p.creator.email == user.value.email.value
  }

  /** `polls.filter(poll => poll.creator.email === user?.email)`: each poll of
      the user's as often as it occurs, and nothing else, in list order. */
  function CreatedPolls(polls: seq<ClientPoll>, user: Option<User>): (r: seq<ClientPoll>)
    ensures |r| <= |polls|
    ensures forall j :: 0 <= j < |r| ==> CreatedBy(r[j], user)
  {
    if polls == [] then []
    else if CreatedBy(polls[0], user) then [polls[0]] + CreatedPolls(polls[1..], user)
    else CreatedPolls(polls[1..], user)
  }

  /** The filter keeps each of the user's polls as often as it is stored and
      drops every other poll. */
  lemma {:induction false} CreatedPollsCounts(polls: seq<ClientPoll>, user: Option<User>)
    ensures forall q :: multiset(CreatedPolls(polls, user))[q] == if CreatedBy(q, user) then multiset(polls)[q] else 0
  {
    if polls != [] {
      assert polls == [polls[0]] + polls[1..];
      CreatedPollsCounts(polls[1..], user);
    }
  }

  /** The filter keeps the stored order: on a concatenation it filters each
      part and puts the results back in the same order, and a single poll is
      kept exactly when the user created it. */
  lemma {:induction false} CreatedPollsOfConcat(a: seq<ClientPoll>, b: seq<ClientPoll>, user: Option<User>)
    ensures CreatedPolls(a + b, user) == CreatedPolls(a, user) + CreatedPolls(b, user)
    ensures |a| == 1 ==> CreatedPolls(a, user) == if CreatedBy(a[0], user) then a else []
  {
    if a == [] {
      assert a + b == b;
    } else {
      assert (a + b)[1..] == a[1..] + b;
      CreatedPollsOfConcat(a[1..], b, user);
    }
  }

  /** `reduce((sum, poll) => sum + (poll.totalVotes || 0), 0)`. */
  function SumTotalVotes(polls: seq<ClientPoll>): (sum: int)
    ensures |polls| == 1 ==> sum == OrZero(polls[0].totalVotes)
  {
    if polls == [] then 0 else OrZero(polls[0].totalVotes) + SumTotalVotes(polls[1..])
  }

  /** `filter(poll => poll.active).length`. */
  function CountActive(polls: seq<ClientPoll>): (n: nat)
    ensures n <= |polls|
    ensures |polls| == 1 ==> n == (if polls[0].active then 1 else 0)
  {
    if polls == [] then 0 else (if polls[0].active then 1 else 0) + CountActive(polls[1..])
  }

  datatype PollStats = PollStats(totalCreated: nat, totalVotes: int, activePolls: nat, totalParticipated: nat)

  /** `pollStats`. The participated list is `polls.filter(() => false)`,
      which is always empty. */
  function Stats(polls: seq<ClientPoll>, user: Option<User>): (s: PollStats)
    ensures s.totalCreated == |CreatedPolls(polls, user)|
    ensures s.totalVotes == SumTotalVotes(CreatedPolls(polls, user))
    ensures s.activePolls <= s.totalCreated
    ensures s.activePolls == CountActive(CreatedPolls(polls, user))
    ensures s.totalParticipated == 0
  {
    var created := CreatedPolls(polls, user);
    var participated: seq<ClientPoll> := [];
    PollStats(|created|, SumTotalVotes(created), CountActive(created), |participated|)
  }

  /** Signed out, the dashboard shows zero everywhere, whatever is stored. */
  lemma {:induction false} SignedOutStatsAreZero(polls: seq<ClientPoll>)
    ensures CreatedPolls(polls, None) == []
    ensures Stats(polls, None) == PollStats(0, 0, 0, 0)
  {
    if polls != [] {
      SignedOutStatsAreZero(polls[1..]);
    }
  }

  /** Submitting a poll while signed in with an email adds one created, one
      active poll and no votes to that user's figures. */
  lemma SubmitAddsToCreatorStats(form: CreatePoll.PollForm, user: Option<User>, now: nat, createdAt: string,
                                 existing: seq<ClientPoll>)
    requires user.Some? && Truthy(user.value.email)
    ensures
      var before := Stats(existing, user);
      Stats(CreatePoll.Submit(form, user, now, createdAt, existing), user)
        == PollStats(before.totalCreated + 1, before.totalVotes, before.activePolls + 1, 0)
  {
    var polls := CreatePoll.Submit(form, user, now, createdAt, existing);
    assert CreatedBy(polls[0], user);
    assert CreatedPolls(polls, user) == [polls[0]] + CreatedPolls(existing, user);
    assert ([polls[0]] + CreatedPolls(existing, user))[1..] == CreatedPolls(existing, user);
  }

  /** The figures of a concatenation add up. */
  lemma {:induction false} CreatedPollsAppend(a: seq<ClientPoll>, b: seq<ClientPoll>)
    ensures SumTotalVotes(a + b) == SumTotalVotes(a) + SumTotalVotes(b)
    ensures CountActive(a + b) == CountActive(a) + CountActive(b)
  {
    if a == [] {
      assert a + b == b;
    } else {
      assert (a + b)[1..] == a[1..] + b;
      CreatedPollsAppend(a[1..], b);
    }
  }

  /** Replacing poll i by a copy with the same creator and `active` flag and
      one more vote moves the creator's vote total by one and nothing else. */
  lemma {:induction false} OneMoreVoteOnDashboard(polls: seq<ClientPoll>, user: Option<User>, i: nat, q: ClientPoll)
    requires i < |polls|
    requires q.creator == polls[i].creator && q.active == polls[i].active
    requires OrZero(q.totalVotes) == OrZero(polls[i].totalVotes) + 1
    ensures |CreatedPolls(polls[i := q], user)| == |CreatedPolls(polls, user)|
    ensures CountActive(CreatedPolls(polls[i := q], user)) == CountActive(CreatedPolls(polls, user))
    ensures SumTotalVotes(CreatedPolls(polls[i := q], user))
      == SumTotalVotes(CreatedPolls(polls, user)) + (if CreatedBy(polls[i], user) then 1 else 0)
  {
    var pre, post := polls[..i], polls[i + 1..];
    assert polls == pre + ([polls[i]] + post);
    assert polls[i := q] == pre + ([q] + post);
    CreatedPollsOfConcat(pre, [polls[i]] + post, user);
    CreatedPollsOfConcat([polls[i]], post, user);
    CreatedPollsOfConcat(pre, [q] + post, user);
    CreatedPollsOfConcat([q], post, user);
    var before, after := CreatedPolls([polls[i]], user), CreatedPolls([q], user);
    CreatedPollsAppend(CreatedPolls(pre, user), before + CreatedPolls(post, user));
    CreatedPollsAppend(before, CreatedPolls(post, user));
    CreatedPollsAppend(CreatedPolls(pre, user), after + CreatedPolls(post, user));
    CreatedPollsAppend(after, CreatedPolls(post, user));
  }

  /** An accepted vote on the page raises the dashboard's vote total of the
      poll's creator by one and leaves every other figure as it was. */
  lemma AcceptedVoteOnDashboard(s: ViewPoll.StorageState, viewer: Option<User>, pollId: string, selected: string,
                                now: nat, user: Option<User>)
    requires ViewPoll.HandleVoteOutcome(s, viewer, pollId, selected, now).0.Accepted?
    ensures
      var i := FindPollIndex(s.polls, pollId).value;
      var before := Stats(s.polls, user);
      Stats(ViewPoll.HandleVoteOutcome(s, viewer, pollId, selected, now).1.polls, user)
        == before.(totalVotes := before.totalVotes + if CreatedBy(s.polls[i], user) then 1 else 0)
  {
    var i := FindPollIndex(s.polls, pollId).value;
    var v := ViewPoll.ResolveVoterId(viewer, s.guestId, now).0;
    OneMoreVoteOnDashboard(s.polls, user, i, ViewPoll.ApplyVote(s.polls[i], selected, v));
  }
}
