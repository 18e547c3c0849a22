/**
 * The browser-side poll records: the list the pages keep as JSON under the
 * local-storage key 'polls', the guest identifier kept under 'guestId', and
 * the signed-in user as the pages see it. Fields the pages read with
 * `x || default` are optional here.
 */
module StoredPolls {
  import opened JsValues

  datatype Sentiments = Sentiments(positive: int, neutral: int, negative: int)

  datatype ClientOption = ClientOption(
    id: string,
    text: string,
    votes: Option<int>,
    sentiments: Option<Sentiments>)

  datatype ClientCreator = ClientCreator(id: string, name: string, email: string)

  datatype ClientPoll = ClientPoll(
    id: string,
    title: string,
    description: string,
    options: seq<ClientOption>,
    creator: ClientCreator,
    createdAt: string,
    totalVotes: Option<int>,
    active: bool,
    voters: Option<seq<string>>)

  /** The signed-in user; any field may be missing. */
  datatype User = User(id: Option<string>, name: Option<string>, email: Option<string>)

  /** `voters || []`. */
  function VoterList(p: ClientPoll): seq<string> {
    p.voters.GetOr([])
  }

  /** The sum of `votes || 0` over the options. */
  function VoteSum(opts: seq<ClientOption>): int {
    if opts == [] then 0 else OrZero(opts[0].votes) + VoteSum(opts[1..])
  }

  /** `totalVotes || 0` agrees with both the option counts and the voter list. */
  predicate ClientTalliesConsistent(p: ClientPoll) {
    OrZero(p.totalVotes) == VoteSum(p.options) && OrZero(p.totalVotes) == |VoterList(p)|
  }

  function OptionIds(opts: seq<ClientOption>): (ids: seq<string>)
    ensures |ids| == |opts| && forall i :: 0 <= i < |opts| ==> ids[i] == opts[i].id
  {
    seq(|opts|, i requires 0 <= i < |opts| => opts[i].id)
  }

  /** `polls.findIndex(p => p.id === id)` (and `polls.find`, which returns the
      poll at that position). */
  function FindPollIndex(polls: seq<ClientPoll>, id: string): (r: Option<nat>)
    ensures r.None? <==> forall j :: 0 <= j < |polls| ==> polls[j].id != id
    ensures r.Some? ==>
      && r.value < |polls| && polls[r.value].id == id
      && forall j :: 0 <= j < r.value ==> polls[j].id != id
  {
    if polls == [] then None
    else if polls[0].id == id then Some(0)
    else
      match FindPollIndex(polls[1..], id)
      case None => None
      case Some(j) => Some(j + 1)
  }

  /** The browser's local storage, already parsed (a missing 'polls' key
      reads as the empty list). */
  class BrowserStorage {
    var polls: seq<ClientPoll>
    var guestId: Option<string>

    constructor (polls: seq<ClientPoll>, guestId: Option<string>)
      ensures this.polls == polls && this.guestId == guestId
    {
      this.polls := polls;
      this.guestId := guestId;
    }
  }
}
