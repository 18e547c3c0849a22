/**
 * The poll page of the browser client: on load it finds the poll and works
 * out whether the visitor has voted; on submit it resolves the voter
 * identifier (creating a persistent guest id when needed), refuses a voter
 * already listed, counts the vote on a copy of the poll and writes that
 * copy back into the stored list.
 */
module ViewPoll {
  import opened JsValues
  import opened StoredPolls

  /** The identifier the page checks on load:
      `user?.email || user?.id || localStorage.getItem('guestId')`. The last
      operand is taken as it is, so a missing or empty guest id is returned. */
  function StoredVoterId(user: Option<User>, guestId: Option<string>): (r: Option<string>)
    ensures Truthy(r) <==> (user.Some? && (Truthy(user.value.email) || Truthy(user.value.id))) || Truthy(guestId)
    ensures Truthy(r) ==> forall now: nat :: ResolveVoterId(user, guestId, now).0 == r.value
  {
    if user.Some? && Truthy(user.value.email) then user.value.email
    else if user.Some? && Truthy(user.value.id) then user.value.id
    else guestId
  }

  /** `foundPoll.voters?.includes(voterIdentifier)`; a missing list gives a
      falsy result. */
  function HasVoted(p: ClientPoll, user: Option<User>, guestId: Option<string>): (b: bool)
    ensures b <==> StoredVoterId(user, guestId).Some? && StoredVoterId(user, guestId).value in VoterList(p)
  {
    p.voters.Some? && StoredVoterId(user, guestId).Some? && StoredVoterId(user, guestId).value in p.voters.value
  }

  /** The identifier used when voting, and the guest id stored afterwards:
      the user's email, else the user's id, else the stored guest id, else a
      new "guest_" + timestamp that is also stored. */
  function ResolveVoterId(user: Option<User>, guestId: Option<string>, now: nat): (r: (string, Option<string>))
    ensures r.0 != ""
    ensures user.Some? && Truthy(user.value.email) ==> r == (user.value.email.value, guestId)
    ensures user.Some? && !Truthy(user.value.email) && Truthy(user.value.id) ==> r == (user.value.id.value, guestId)
    ensures !(user.Some? && (Truthy(user.value.email) || Truthy(user.value.id))) ==>
      && (Truthy(guestId) ==> r == (guestId.value, guestId))
      && (!Truthy(guestId) ==> r.0 == "guest_" + DecimalString(now) && r.1 == Some(r.0))
  {
    if user.Some? && Truthy(user.value.email) then (user.value.email.value, guestId)
    else if user.Some? && Truthy(user.value.id) then (user.value.id.value, guestId)
    else if Truthy(guestId) then (guestId.value, guestId)
    else
      var newId := "guest_" + DecimalString(now);
      (newId, Some(newId))
  }

  /** Lines 72-80 on the browser's storage. */
  method GetOrCreateVoterId(storage: BrowserStorage, user: Option<User>, now: nat) returns (v: string)
    modifies storage`guestId
    ensures (v, storage.guestId) == ResolveVoterId(user, old(storage.guestId), now)
  {
    if user.Some? && Truthy(user.value.email) {
      return user.value.email.value;
    }
    if user.Some? && Truthy(user.value.id) {
      return user.value.id.value;
    }
    if Truthy(storage.guestId) {
      return storage.guestId.value;
    }
    v := "guest_" + DecimalString(now);
    storage.guestId := Some(v);
  }

  /** Once resolved, the identifier stays: resolving again with the stored
      guest id, at any later time, gives the same identifier and stores
      nothing new. */
  lemma GuestIdIsReused(user: Option<User>, guestId: Option<string>, now: nat, later: nat)
    ensures
      var (v, g) := ResolveVoterId(user, guestId, now);
      ResolveVoterId(user, g, later) == (v, g)
  {
  }

  /** Whenever no new guest id has to be made, the page's `hasVoted` flag is
      exactly "the voting identifier is already listed". */
  lemma HasVotedMatchesVoteCheck(p: ClientPoll, user: Option<User>, guestId: Option<string>, now: nat)
    requires (user.Some? && (Truthy(user.value.email) || Truthy(user.value.id))) || Truthy(guestId)
    ensures HasVoted(p, user, guestId) <==> ResolveVoterId(user, guestId, now).0 in VoterList(p)
  {
  }

  // ---------------------------------------------------------------------
  // Counting a vote on a copy of the poll

  /** The number of options whose id is `selected`. */
  function CountMatching(opts: seq<ClientOption>, selected: string): (n: nat)
    ensures n <= |opts|
    ensures n == 0 <==> selected !in OptionIds(opts)
  {
    if opts == [] then 0
    else (if opts[0].id == selected then 1 else 0) + CountMatching(opts[1..], selected)
  }

  /** The `map` of lines 90-93: each option keeps its id, text and sentiments
      and its position; a matching option gets `(votes || 0) + 1`, every
      other option `votes || 0`. */
  function VoteOnOptions(opts: seq<ClientOption>, selected: string): (r: seq<ClientOption>)
    ensures |r| == |opts|
    ensures forall i :: 0 <= i < |opts| ==>
      && r[i].id == opts[i].id && r[i].text == opts[i].text && r[i].sentiments == opts[i].sentiments
      && r[i].votes == Some(if opts[i].id == selected then OrZero(opts[i].votes) + 1 else OrZero(opts[i].votes))
  {
    if opts == [] then []
    else
      var o := opts[0];
      var rest := VoteOnOptions(opts[1..], selected);
      var r := [o.(votes := Some(if o.id == selected then OrZero(o.votes) + 1 else OrZero(o.votes)))] + rest;
      assert forall i :: 1 <= i < |opts| ==> r[i] == rest[i - 1] && opts[i] == opts[1..][i - 1];
      r
  }

  /** Every matching option adds one to the option sum. */
  lemma {:induction false} VoteOnOptionsSum(opts: seq<ClientOption>, selected: string)
    ensures VoteSum(VoteOnOptions(opts, selected)) == VoteSum(opts) + CountMatching(opts, selected)
  {
    if opts != [] {
      VoteOnOptionsSum(opts[1..], selected);
      assert VoteOnOptions(opts, selected)[1..] == VoteOnOptions(opts[1..], selected);
    }
  }

  /** With distinct option ids, a selection that names an option matches it once. */
  lemma {:induction false} DistinctIdsMatchOnce(opts: seq<ClientOption>, selected: string)
    requires NoDuplicates(OptionIds(opts))
    requires selected in OptionIds(opts)
    ensures CountMatching(opts, selected) == 1
  {
    if opts[0].id == selected {
      assert selected !in OptionIds(opts[1..]) by {
        assert forall j :: 0 <= j < |opts| - 1 ==> OptionIds(opts[1..])[j] == OptionIds(opts)[j + 1];
      }
    } else {
      assert OptionIds(opts[1..]) == OptionIds(opts)[1..];
      DistinctIdsMatchOnce(opts[1..], selected);
    }
  }

  /** The copy written back (lines 89-97). */
  function ApplyVote(p: ClientPoll, selected: string, voter: string): (q: ClientPoll)
    ensures q.options == VoteOnOptions(p.options, selected)
    ensures q.totalVotes == Some(OrZero(p.totalVotes) + 1)
    ensures q.voters == Some(VoterList(p) + [voter])
    ensures q == p.(options := q.options, totalVotes := q.totalVotes, voters := q.voters)
  {
    p.(options := VoteOnOptions(p.options, selected),
       totalVotes := Some(OrZero(p.totalVotes) + 1),
       voters := Some(VoterList(p) + [voter]))
  }

  /** The option sum grows by the number of matching options, `totalVotes`
      and the voter list by exactly one each. */
  lemma ApplyVoteTallies(p: ClientPoll, selected: string, voter: string)
    ensures VoteSum(ApplyVote(p, selected, voter).options) == VoteSum(p.options) + CountMatching(p.options, selected)
    ensures OrZero(ApplyVote(p, selected, voter).totalVotes) == OrZero(p.totalVotes) + 1
    ensures |VoterList(ApplyVote(p, selected, voter))| == |VoterList(p)| + 1
  {
    VoteOnOptionsSum(p.options, selected);
  }

  /** A consistent poll stays consistent exactly when the selection matches
      one option: no match or a duplicated id breaks `totalVotes == Σ votes`. */
  lemma ApplyVoteKeepsTalliesIffOneMatch(p: ClientPoll, selected: string, voter: string)
    requires ClientTalliesConsistent(p)
    ensures ClientTalliesConsistent(ApplyVote(p, selected, voter)) <==> CountMatching(p.options, selected) == 1
  {
    ApplyVoteTallies(p, selected, voter);
  }

  /** A selection that names no option still raises `totalVotes` and adds the
      voter, while no option count moves. */
  lemma UnmatchedSelectionStillCounted(p: ClientPoll, selected: string, voter: string)
    requires selected !in OptionIds(p.options)
    ensures OrZero(ApplyVote(p, selected, voter).totalVotes) == OrZero(p.totalVotes) + 1
    ensures VoteSum(ApplyVote(p, selected, voter).options) == VoteSum(p.options)
    ensures voter in VoterList(ApplyVote(p, selected, voter))
  {
    ApplyVoteTallies(p, selected, voter);
  }

  // ---------------------------------------------------------------------
  // The submit handler

  datatype VoteError = NoSelection | PollMissing | DuplicateVote

  /** The page shows its "not found" screen when the error is exactly
      'Poll not found' (line 115); only a missing poll sets that text. */
  function ErrorText(e: VoteError): (msg: string)
    ensures msg != ""
    ensures msg == "Poll not found" <==> e == PollMissing
    ensures msg == "Please select an option" <==> e == NoSelection
    ensures msg == "You have already voted in this poll" <==> e == DuplicateVote
  {
    match e
    case NoSelection => "Please select an option"
    case PollMissing => "Poll not found"
    case DuplicateVote => "You have already voted in this poll"
  }

  /** Each rejection shows its own message. */
  lemma ErrorTextsDistinct(a: VoteError, b: VoteError)
    requires ErrorText(a) == ErrorText(b)
    ensures a == b
  {
  }

  datatype ClientVoteResult = Rejected(reason: VoteError) | Accepted(poll: ClientPoll)

  /** The two storage keys the handler reads and writes. */
  datatype StorageState = StorageState(polls: seq<ClientPoll>, guestId: Option<string>)

  /** What `handleVote` does to storage, for the page's poll id. */
  function HandleVoteOutcome(s: StorageState, user: Option<User>, pollId: string, selected: string, now: nat)
    : (out: (ClientVoteResult, StorageState))
    ensures selected == "" ==> out == (Rejected(NoSelection), s)
    ensures selected != "" && FindPollIndex(s.polls, pollId).None? ==> out == (Rejected(PollMissing), s)
    ensures selected != "" && FindPollIndex(s.polls, pollId).Some? ==>
      var i := FindPollIndex(s.polls, pollId).value;
      var (v, g) := ResolveVoterId(user, s.guestId, now);
      && (v in VoterList(s.polls[i]) ==> out == (Rejected(DuplicateVote), StorageState(s.polls, g)))
      && (v !in VoterList(s.polls[i]) ==>
            out == (Accepted(ApplyVote(s.polls[i], selected, v)),
                    StorageState(s.polls[i := ApplyVote(s.polls[i], selected, v)], g)))
  {
    if selected == "" then (Rejected(NoSelection), s)
    else
      match FindPollIndex(s.polls, pollId)
      case None => (Rejected(PollMissing), s)
      case Some(i) =>
        var (v, g) := ResolveVoterId(user, s.guestId, now);
        if v in VoterList(s.polls[i]) then (Rejected(DuplicateVote), StorageState(s.polls, g))
        else
          var q := ApplyVote(s.polls[i], selected, v);
          (Accepted(q), StorageState(s.polls[i := q], g))
  }

  /** A rejected vote leaves the stored poll list as it was. */
  lemma RejectedVoteLeavesPolls(s: StorageState, user: Option<User>, pollId: string, selected: string, now: nat)
    requires HandleVoteOutcome(s, user, pollId, selected, now).0.Rejected?
    ensures HandleVoteOutcome(s, user, pollId, selected, now).1.polls == s.polls
  {
  }

  /** An accepted vote replaces only the first poll with the page's id; the
      list keeps its length and every other entry, including later polls
      that happen to share the id. */
  lemma AcceptedVoteReplacesOnlyFirstMatch(s: StorageState, user: Option<User>, pollId: string, selected: string, now: nat)
    requires HandleVoteOutcome(s, user, pollId, selected, now).0.Accepted?
    ensures
      var polls' := HandleVoteOutcome(s, user, pollId, selected, now).1.polls;
      && FindPollIndex(s.polls, pollId).Some?
      && |polls'| == |s.polls|
      && (forall j :: 0 <= j < |s.polls| && j != FindPollIndex(s.polls, pollId).value ==> polls'[j] == s.polls[j])
      && polls'[FindPollIndex(s.polls, pollId).value].id == pollId
  {
  }

  /** An accepted vote adds a voter not yet listed, so a duplicate-free voter
      list stays duplicate-free. */
  lemma AcceptedVoteKeepsVotersUnique(s: StorageState, user: Option<User>, pollId: string, selected: string, now: nat)
    requires HandleVoteOutcome(s, user, pollId, selected, now).0.Accepted?
    requires NoDuplicates(VoterList(s.polls[FindPollIndex(s.polls, pollId).value]))
    ensures NoDuplicates(VoterList(HandleVoteOutcome(s, user, pollId, selected, now).0.poll))
  {
    var i := FindPollIndex(s.polls, pollId).value;
    var v := ResolveVoterId(user, s.guestId, now).0;
    AppendFreshKeepsNoDuplicates(VoterList(s.polls[i]), v);
  }

  /** After an accepted vote, the same visitor's next vote on that poll (with
      the storage as the first left it) is refused. */
  lemma SecondVoteRefused(s: StorageState, user: Option<User>, pollId: string, selected: string, now: nat,
                          selected2: string, later: nat)
    requires HandleVoteOutcome(s, user, pollId, selected, now).0.Accepted?
    requires selected2 != ""
    ensures HandleVoteOutcome(HandleVoteOutcome(s, user, pollId, selected, now).1, user, pollId, selected2, later).0
      == Rejected(DuplicateVote)
  {
    var i := FindPollIndex(s.polls, pollId).value;
    var s' := HandleVoteOutcome(s, user, pollId, selected, now).1;
    GuestIdIsReused(user, s.guestId, now, later);
    assert FindPollIndex(s'.polls, pollId) == Some(i) by {
      assert forall j :: 0 <= j < |s.polls| ==> s'.polls[j].id == s.polls[j].id;
    }
  }

  // ---------------------------------------------------------------------
  // The page

  class ViewPollPage {
    /** The `:id` route parameter. */
    const id: string
    var poll: Option<ClientPoll>
    var error: string
    var success: bool
    var hasVoted: bool

    constructor (id: string)
      ensures this.id == id && poll.None? && error == "" && !success && !hasVoted
    {
      this.id := id;
      poll := None;
      error := "";
      success := false;
      hasVoted := false;
    }

    /** The load effect (lines 40-53). */
    method Load(storage: BrowserStorage, user: Option<User>)
      modifies this`poll, this`error, this`hasVoted
      ensures FindPollIndex(storage.polls, id).Some? ==>
        && poll == Some(storage.polls[FindPollIndex(storage.polls, id).value])
        && hasVoted == HasVoted(storage.polls[FindPollIndex(storage.polls, id).value], user, storage.guestId)
        && error == old(error)
      ensures FindPollIndex(storage.polls, id).None? ==>
        error == "Poll not found" && poll == old(poll) && hasVoted == old(hasVoted)
    {
      var found := FindPollIndex(storage.polls, id);
      if found.Some? {
        var p := storage.polls[found.value];
        poll := Some(p);
        hasVoted := HasVoted(p, user, storage.guestId);
      } else {
        error := ErrorText(PollMissing);
      }
    }

    /** `handleVote` (lines 55-113); `now` is the `Date.now()` reading. */
    method HandleVote(storage: BrowserStorage, user: Option<User>, selected: string, now: nat)
      returns (r: ClientVoteResult)
      modifies this`poll, this`error, this`success, this`hasVoted, storage
      ensures (r, StorageState(storage.polls, storage.guestId))
        == HandleVoteOutcome(StorageState(old(storage.polls), old(storage.guestId)), user, id, selected, now)
      ensures r.Rejected? ==>
        error == ErrorText(r.reason) && poll == old(poll) && success == old(success) && hasVoted == old(hasVoted)
      ensures r.Accepted? ==> poll == Some(r.poll) && hasVoted && success && error == ""
    {
      if selected == "" {
        error := ErrorText(NoSelection);
        return Rejected(NoSelection);
      }
      var polls := storage.polls;
      var found := FindPollIndex(polls, id);
      if found.None? {
        error := ErrorText(PollMissing);
        return Rejected(PollMissing);
      }
      var i := found.value;
      var voter := GetOrCreateVoterId(storage, user, now);
      if voter in VoterList(polls[i]) {
        error := ErrorText(DuplicateVote);
        return Rejected(DuplicateVote);
      }
      var updated := ApplyVote(polls[i], selected, voter);
      polls := polls[i := updated];
      storage.polls := polls;
      poll := Some(updated);
      hasVoted := true;
      success := true;
      error := "";
      r := Accepted(updated);
    }
  }
}
