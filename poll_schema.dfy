/**
 * The server's Poll model: the option and poll schemas with their required
 * fields and defaults, the tally invariants the vote handlers are meant to
 * keep, and the collection of stored poll documents.
 */
module PollSchema {
  import opened JsValues

  /** A JavaScript number as a vote counter can hold it: an integer, or NaN
      (what `undefined + 1` evaluates to). */
  datatype Num = Finite(n: int) | NaN {
    function Plus1(): (r: Num)
      ensures Finite? <==> r.Finite?
      ensures Finite? ==> r.n == n + 1
    {
      if Finite? then Finite(n + 1) else NaN
    }
  }

  /** An option subdocument. `oid` is the `_id` mongoose gives every
      subdocument; `id` is the schema's own string field. `sentiments` is not a
      path of the option schema: a document the schema builds has None there. */
  datatype OptionDoc = OptionDoc(
    oid: string,
    id: string,
    text: string,
    votes: int,
    sentiments: Option<map<string, Num>>)

  datatype Creator = Creator(name: string, id: string)

  /** A stored poll; `pid` is its `_id`. */
  datatype PollDoc = PollDoc(
    pid: string,
    title: string,
    description: Option<string>,
    creator: Creator,
    options: seq<OptionDoc>,
    voters: seq<string>,
    totalVotes: int,
    active: bool,
    createdAt: int)

  /** A request body as handed to `new Poll(...)`: any field may be missing. */
  datatype OptionInput = OptionInput(id: Option<string>, text: Option<string>, votes: Option<int>)

  datatype PollInput = PollInput(
    title: Option<string>,
    description: Option<string>,
    creatorName: Option<string>,
    creatorId: Option<string>,
    options: seq<OptionInput>,
    voters: Option<seq<string>>,
    totalVotes: Option<int>,
    active: Option<bool>,
    createdAt: Option<int>)

  /** The outcome of validating a document: the document, or the paths whose
      `required` validator failed. */
  datatype Built<T> = Valid(doc: T) | ValidationError(paths: set<string>)

  /** Mongoose's `required` check on a String path: missing and "" both fail. */
  predicate Present(s: Option<string>) {
    Truthy(s)
  }

  predicate OptionInputValid(o: OptionInput) {
    Present(o.id) && Present(o.text)
  }

  function OptionPath(i: nat, field: string): string {
    "options." + DecimalString(i) + "." + field
  }

  /** The failing paths among options[from..]. */
  function MissingOptionPaths(opts: seq<OptionInput>, from: nat): (paths: set<string>)
    requires from <= |opts|
    ensures paths == {} <==> forall i :: from <= i < |opts| ==> OptionInputValid(opts[i])
    ensures forall i :: from <= i < |opts| && !Present(opts[i].id) ==> OptionPath(i, "id") in paths
    ensures forall i :: from <= i < |opts| && !Present(opts[i].text) ==> OptionPath(i, "text") in paths
    ensures forall p :: p in paths ==> NamesMissingField(opts, from, p)
    decreases |opts| - from
  {
    if from == |opts| then {}
    else MissingFieldPaths(opts, from) + MissingOptionPaths(opts, from + 1)
  }

  /** The failing paths of options[i] alone. */
  function MissingFieldPaths(opts: seq<OptionInput>, i: nat): (here: set<string>)
    requires i < |opts|
    ensures here == {} <==> OptionInputValid(opts[i])
    ensures !Present(opts[i].id) ==> OptionPath(i, "id") in here
    ensures !Present(opts[i].text) ==> OptionPath(i, "text") in here
    ensures forall p :: p in here ==> FieldPathMissing(opts, i, p)
  {
    (if Present(opts[i].id) then {} else {OptionPath(i, "id")})
    + (if Present(opts[i].text) then {} else {OptionPath(i, "text")})
  }

  /** p is `options.<i>.id` or `options.<i>.text` for an option i that lacks that field. */
  predicate FieldPathMissing(opts: seq<OptionInput>, i: nat, p: string)
    requires i < |opts|
  {
    (p == OptionPath(i, "id") && !Present(opts[i].id)) || (p == OptionPath(i, "text") && !Present(opts[i].text))
  }

  /** p names a missing field of one of options[from..]. */
  predicate NamesMissingField(opts: seq<OptionInput>, from: nat, p: string) {
    exists i :: from <= i < |opts| && FieldPathMissing(opts, i, p)
  }

  /** Builds one option subdocument: `id` and `text` are required, `votes`
      defaults to 0, and there is no `sentiments` path. */
  function BuildOption(oid: string, o: OptionInput): (d: OptionDoc)
    requires OptionInputValid(o)
    ensures d.oid == oid && d.id == o.id.value && d.text == o.text.value
    ensures d.votes == (if o.votes.Some? then o.votes.value else 0)
    ensures d.sentiments.None?
  {
    OptionDoc(oid, o.id.value, o.text.value, o.votes.GetOr(0), None)
  }

  function BuildOptions(oids: seq<string>, opts: seq<OptionInput>): (ds: seq<OptionDoc>)
    requires |oids| == |opts|
    requires forall i :: 0 <= i < |opts| ==> OptionInputValid(opts[i])
    ensures |ds| == |opts|
    ensures forall i :: 0 <= i < |ds| ==> ds[i] == BuildOption(oids[i], opts[i])
  {
    seq(|opts|, i requires 0 <= i < |opts| => BuildOption(oids[i], opts[i]))
  }

  /** The paths validation reports for a body: the missing top-level
      required paths and the missing option fields. */
  function FailingPaths(input: PollInput): (paths: set<string>)
    ensures paths == {} <==>
      Present(input.title) && Present(input.creatorName) && Present(input.creatorId)
      && forall i :: 0 <= i < |input.options| ==> OptionInputValid(input.options[i])
    ensures "title" in paths <==> !Present(input.title)
    ensures "creator.name" in paths <==> !Present(input.creatorName)
    ensures "creator.id" in paths <==> !Present(input.creatorId)
    ensures paths - {"title", "creator.name", "creator.id"} == MissingOptionPaths(input.options, 0)
  {
    var top :=
      (if Present(input.title) then {} else {"title"})
      + (if Present(input.creatorName) then {} else {"creator.name"})
      + (if Present(input.creatorId) then {} else {"creator.id"});
    var options := MissingOptionPaths(input.options, 0);
    OptionPathsAreNotTopLevel(input.options, 0);
    SeparatePaths(top, options);
    top + options
  }

  /** Top-level paths and option paths (which all start with 'o') do not mix. */
  lemma SeparatePaths(top: set<string>, options: set<string>)
    requires top <= {"title", "creator.name", "creator.id"}
    requires forall p :: p in options ==> |p| > 0 && p[0] == 'o'
    ensures "title" in top + options <==> "title" in top
    ensures "creator.name" in top + options <==> "creator.name" in top
    ensures "creator.id" in top + options <==> "creator.id" in top
    ensures (top + options) - {"title", "creator.name", "creator.id"} == options
  {
  }

  /** `new Poll(body)` followed by validation. `pid` and `oids` are the
      identifiers mongoose generates for the poll and its options, `now` the
      clock reading that `Date.now` supplies as the `createdAt` default. */
  function BuildPoll(pid: string, oids: seq<string>, input: PollInput, now: int): (r: Built<PollDoc>)
    requires |oids| == |input.options|
    ensures r.Valid? <==>
      Present(input.title) && Present(input.creatorName) && Present(input.creatorId)
      && forall i :: 0 <= i < |input.options| ==> OptionInputValid(input.options[i])
    ensures r.ValidationError? ==>
      r.paths != {}
      && ("title" in r.paths <==> !Present(input.title))
      && ("creator.name" in r.paths <==> !Present(input.creatorName))
      && ("creator.id" in r.paths <==> !Present(input.creatorId))
      && r.paths - {"title", "creator.name", "creator.id"} == MissingOptionPaths(input.options, 0)
    ensures r.Valid? ==>
      var d := r.doc;
      && d.pid == pid && d.title == input.title.value && d.description == input.description
      && d.creator == Creator(input.creatorName.value, input.creatorId.value)
      && |d.options| == |input.options|
      && (forall i :: 0 <= i < |d.options| ==>
            d.options[i].id == input.options[i].id.value
            && d.options[i].text == input.options[i].text.value
            && d.options[i].votes == input.options[i].votes.GetOr(0)
            && d.options[i].sentiments.None?)
      && d.voters == input.voters.GetOr([])
      && d.totalVotes == input.totalVotes.GetOr(0)
      && d.active == input.active.GetOr(true)
      && d.createdAt == input.createdAt.GetOr(now)
  {
    var paths := FailingPaths(input);
    if paths != {} then
      ValidationError(paths)
    else
      Valid(PollDoc(
        pid,
        input.title.value,
        input.description,
        Creator(input.creatorName.value, input.creatorId.value),
        BuildOptions(oids, input.options),
        input.voters.GetOr([]),
        input.totalVotes.GetOr(0),
        input.active.GetOr(true),
        input.createdAt.GetOr(now)))
  }

  /** Every option path starts with the 'o' of "options.", so none is a top-level path. */
  lemma OptionPathsAreNotTopLevel(opts: seq<OptionInput>, from: nat)
    requires from <= |opts|
    ensures forall p :: p in MissingOptionPaths(opts, from) ==> |p| > 0 && p[0] == 'o'
    decreases |opts| - from
  {
    if from < |opts| {
      OptionPathsAreNotTopLevel(opts, from + 1);
      assert OptionPath(from, "id")[0] == 'o';
      assert OptionPath(from, "text")[0] == 'o';
    }
  }

  // ---------------------------------------------------------------------
  // The tally invariants

  function SumVotes(opts: seq<OptionDoc>): int {
    if opts == [] then 0 else opts[0].votes + SumVotes(opts[1..])
  }

  /** totalVotes agrees with both the per-option counts and the voter list. */
  predicate TalliesConsistent(p: PollDoc) {
    p.totalVotes == SumVotes(p.options) && p.totalVotes == |p.voters|
  }

  predicate VotersUnique(p: PollDoc) {
    NoDuplicates(p.voters)
  }

  /** Replacing one option changes the sum by the change in its count. */
  lemma {:induction false} SumVotesReplace(opts: seq<OptionDoc>, k: nat, o: OptionDoc)
    requires k < |opts|
    ensures SumVotes(opts[k := o]) == SumVotes(opts) - opts[k].votes + o.votes
  {
    var changed := opts[k := o];
    if k == 0 {
      assert changed[1..] == opts[1..];
    } else {
      assert changed[1..] == opts[1..][k - 1 := o];
      SumVotesReplace(opts[1..], k - 1, o);
    }
  }

  lemma {:induction false} SumVotesOfFreshOptions(oids: seq<string>, opts: seq<OptionInput>)
    requires |oids| == |opts|
    requires forall i :: 0 <= i < |opts| ==> OptionInputValid(opts[i]) && opts[i].votes.None?
    ensures SumVotes(BuildOptions(oids, opts)) == 0
  {
    if opts != [] {
      assert BuildOptions(oids, opts)[1..] == BuildOptions(oids[1..], opts[1..]);
      SumVotesOfFreshOptions(oids[1..], opts[1..]);
    }
  }

  /** A poll created from a body that carries no counts and no voters starts
      with both tally invariants and a duplicate-free voter list. */
  lemma FreshPollConsistent(pid: string, oids: seq<string>, input: PollInput, now: int)
    requires |oids| == |input.options|
    requires input.voters.None? && input.totalVotes.None?
    requires forall i :: 0 <= i < |input.options| ==> input.options[i].votes.None?
    requires BuildPoll(pid, oids, input, now).Valid?
    ensures TalliesConsistent(BuildPoll(pid, oids, input, now).doc)
    ensures VotersUnique(BuildPoll(pid, oids, input, now).doc)
  {
    SumVotesOfFreshOptions(oids, input.options);
  }

  // ---------------------------------------------------------------------
  // The stored collection

  /** `Poll.findById(id)`: the position of the document whose `_id` is id. */
  function IndexOfPoll(docs: seq<PollDoc>, id: string): (r: Option<nat>)
    ensures r.None? <==> forall j :: 0 <= j < |docs| ==> docs[j].pid != id
    ensures r.Some? ==>
      && r.value < |docs| && docs[r.value].pid == id
      && forall j :: 0 <= j < r.value ==> docs[j].pid != id
  {
    if docs == [] then None
    else if docs[0].pid == id then Some(0)
    else
      match IndexOfPoll(docs[1..], id)
      case None => None
      case Some(j) => Some(j + 1)
  }

  /** The poll collection: the documents the database holds. */
  class PollCollection {
    var docs: seq<PollDoc>

    constructor (initial: seq<PollDoc>)
      ensures docs == initial
    {
      docs := initial;
    }

    /** `poll.save()` for the document loaded from position i. */
    method Save(i: nat, doc: PollDoc)
      requires i < |docs|
      modifies this
      ensures docs == old(docs)[i := doc]
    {
      docs := docs[i := doc];
    }

    /** `poll.remove()` for the document loaded from position i. */
    method Remove(i: nat)
      requires i < |docs|
      modifies this
      ensures docs == old(docs)[..i] + old(docs)[i + 1..]
    {
      docs := docs[..i] + docs[i + 1..];
    }
  }
}
