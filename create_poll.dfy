/**
 * The poll creation form of the browser client: the initial form, editing,
 * adding and removing options, and the poll record built on submit and
 * stored in front of the existing list.
 *
 * A new option's id is `String(length + 1)`. After a removal this can repeat
 * an id still in the list; the lemmas below show the consequences, and
 * `NumberedForm` gives the form with an id counter that never repeats.
 */
module CreatePoll {
  import opened JsValues
  import opened StoredPolls
  import ViewPoll

  datatype FormOption = FormOption(id: string, text: string)

  datatype PollForm = PollForm(title: string, description: string, options: seq<FormOption>)

  function FormIds(opts: seq<FormOption>): (ids: seq<string>)
    ensures |ids| == |opts| && forall i :: 0 <= i < |opts| ==> ids[i] == opts[i].id
  {
    seq(|opts|, i requires 0 <= i < |opts| => opts[i].id)
  }

  /** The form's initial state: no title or description and two empty
      options with ids "1" and "2". */
  function InitialForm(): (f: PollForm)
    ensures f.title == "" && f.description == ""
    ensures FormIds(f.options) == ["1", "2"]
    ensures NoDuplicates(FormIds(f.options))
    ensures forall o :: o in f.options ==> o.text == ""
  {
    PollForm("", "", [FormOption("1", ""), FormOption("2", "")])
  }

  /** `handleOptionChange(id, value)`: the text of every option with that id
      becomes value; ids, order and length are kept. */
  function HandleOptionChange(f: PollForm, id: string, value: string): (r: PollForm)
    ensures r.title == f.title && r.description == f.description
    ensures FormIds(r.options) == FormIds(f.options)
    ensures forall i :: 0 <= i < |f.options| ==>
      r.options[i].text == (if f.options[i].id == id then value else f.options[i].text)
  {
    f.(options := seq(|f.options|, i requires 0 <= i < |f.options| =>
      if f.options[i].id == id then f.options[i].(text := value) else f.options[i]))
  }

  /** `addOption()`: one empty option at the end, with id
      `String(length + 1)`. */
  function AddOption(f: PollForm): (r: PollForm)
    ensures r.title == f.title && r.description == f.description
    ensures |r.options| == |f.options| + 1 && r.options[..|f.options|] == f.options
    ensures r.options[|f.options|] == FormOption(DecimalString(|f.options| + 1), "")
  {
    f.(options := f.options + [FormOption(DecimalString(|f.options| + 1), "")])
  }

  /** `options.filter(opt => opt.id !== id)`. */
  function WithoutId(opts: seq<FormOption>, id: string): (r: seq<FormOption>)
    ensures |r| <= |opts|
    ensures forall o :: o in r <==> o in opts && o.id != id
  {
    if opts == [] then []
    else if opts[0].id == id then WithoutId(opts[1..], id)
    else [opts[0]] + WithoutId(opts[1..], id)
  }

  /** The filter keeps each option with another id as often as it occurs and
      drops every option with that id. */
  lemma {:induction false} WithoutIdCounts(opts: seq<FormOption>, id: string)
    ensures forall o :: multiset(WithoutId(opts, id))[o] == if o.id != id then multiset(opts)[o] else 0
  {
    if opts != [] {
      assert opts == [opts[0]] + opts[1..];
      WithoutIdCounts(opts[1..], id);
    }
  }

  /** The filter keeps the order: on a concatenation it filters each part and
      puts the results back in the same order. */
  lemma {:induction false} WithoutIdAppend(a: seq<FormOption>, b: seq<FormOption>, id: string)
    ensures WithoutId(a + b, id) == WithoutId(a, id) + WithoutId(b, id)
  {
    if a == [] {
      assert a + b == b;
    } else {
      assert (a + b)[1..] == a[1..] + b;
      WithoutIdAppend(a[1..], b, id);
    }
  }

  /** `removeOption(id)`: nothing happens while there are at most two
      options; otherwise every option with that id goes. */
  function RemoveOption(f: PollForm, id: string): (r: PollForm)
    ensures |f.options| <= 2 ==> r == f
    ensures |f.options| > 2 ==> r == f.(options := WithoutId(f.options, id))
  {
    if |f.options| > 2 then f.(options := WithoutId(f.options, id)) else f
  }

  lemma TailKeepsNoDuplicates(opts: seq<FormOption>)
    requires opts != [] && NoDuplicates(FormIds(opts))
    ensures NoDuplicates(FormIds(opts[1..]))
    ensures opts[0].id !in FormIds(opts[1..])
  {
    assert FormIds(opts[1..]) == FormIds(opts)[1..];
  }

  /** With distinct ids the filter drops at most one option. */
  lemma {:induction false} WithoutIdDropsAtMostOne(opts: seq<FormOption>, id: string)
    requires NoDuplicates(FormIds(opts))
    ensures |WithoutId(opts, id)| >= |opts| - 1
  {
    if opts != [] {
      TailKeepsNoDuplicates(opts);
      if opts[0].id == id {
        WithoutIdKeepsAllOthers(opts[1..], id);
      } else {
        WithoutIdDropsAtMostOne(opts[1..], id);
      }
    }
  }

  /** An id absent from the list is absent from what the filter keeps. */
  lemma FilterAvoidsId(opts: seq<FormOption>, id: string, x: string)
    requires x !in FormIds(opts)
    ensures x !in FormIds(WithoutId(opts, id))
  {
  }

  /** Putting an option with a fresh id in front keeps the ids distinct. */
  lemma ConsKeepsNoDuplicates(o: FormOption, rest: seq<FormOption>)
    requires NoDuplicates(FormIds(rest)) && o.id !in FormIds(rest)
    ensures NoDuplicates(FormIds([o] + rest))
  {
    assert FormIds([o] + rest) == [o.id] + FormIds(rest);
  }

  /** The filter keeps distinct ids distinct. */
  lemma {:induction false} WithoutIdKeepsDistinct(opts: seq<FormOption>, id: string)
    requires NoDuplicates(FormIds(opts))
    ensures NoDuplicates(FormIds(WithoutId(opts, id)))
  {
    if opts != [] {
      TailKeepsNoDuplicates(opts);
      WithoutIdKeepsDistinct(opts[1..], id);
      if opts[0].id != id {
        FilterAvoidsId(opts[1..], id, opts[0].id);
        ConsKeepsNoDuplicates(opts[0], WithoutId(opts[1..], id));
      }
    }
  }

  lemma {:induction false} WithoutIdKeepsAllOthers(opts: seq<FormOption>, id: string)
    requires id !in FormIds(opts)
    ensures WithoutId(opts, id) == opts
  {
    if opts != [] {
      assert FormIds(opts[1..]) == FormIds(opts)[1..];
      WithoutIdKeepsAllOthers(opts[1..], id);
    }
  }

  /** With distinct ids, removal never takes the form below two options. */
  lemma RemoveKeepsTwoWhenIdsDistinct(f: PollForm, id: string)
    requires NoDuplicates(FormIds(f.options)) && |f.options| >= 2
    ensures |RemoveOption(f, id).options| >= 2
    ensures NoDuplicates(FormIds(RemoveOption(f, id).options))
  {
    if |f.options| > 2 {
      WithoutIdDropsAtMostOne(f.options, id);
      WithoutIdKeepsDistinct(f.options, id);
    }
  }

  // ---------------------------------------------------------------------
  // Submit

  /** An option of a new poll: the form's id and text with zeroed tallies. */
  function NewOption(o: FormOption): (r: ClientOption)
    ensures r.id == o.id && r.text == o.text
    ensures OrZero(r.votes) == 0 && r.votes.Some?
    ensures r.sentiments == Some(Sentiments(0, 0, 0))
  {
    ClientOption(o.id, o.text, Some(0), Some(Sentiments(0, 0, 0)))
  }

  /** The creator record: the user's id, name and email, each defaulting to
      the guest's when missing or empty. */
  function CreatorFor(user: Option<User>): (c: ClientCreator)
    ensures user.None? ==> c == ClientCreator("guest", "Guest User", "guest@example.com")
    ensures user.Some? ==>
      && c.id == (if Truthy(user.value.id) then user.value.id.value else "guest")
      && c.name == (if Truthy(user.value.name) then user.value.name.value else "Guest User")
      && c.email == (if Truthy(user.value.email) then user.value.email.value else "guest@example.com")
  {
    if user.None? then ClientCreator("guest", "Guest User", "guest@example.com")
    else
      var u := user.value;
      ClientCreator(
        if Truthy(u.id) then u.id.value else "guest",
        if Truthy(u.name) then u.name.value else "Guest User",
        if Truthy(u.email) then u.email.value else "guest@example.com")
  }

  /** The record `handleSubmit` builds; `now` is `Date.now()` and
      `createdAt` the ISO string of the same moment. */
  function NewPoll(form: PollForm, user: Option<User>, now: nat, createdAt: string): (p: ClientPoll)
    ensures p.id == DecimalString(now)
    ensures p.title == form.title && p.description == form.description
    ensures |p.options| == |form.options|
    ensures forall i :: 0 <= i < |p.options| ==>
      && p.options[i].id == form.options[i].id && p.options[i].text == form.options[i].text
      && p.options[i].votes == Some(0) && p.options[i].sentiments == Some(Sentiments(0, 0, 0))
    ensures p.creator == CreatorFor(user) && p.createdAt == createdAt
    ensures p.totalVotes == Some(0) && p.active && p.voters == Some([])
  {
    ClientPoll(
      DecimalString(now),
      form.title,
      form.description,
      seq(|form.options|, i requires 0 <= i < |form.options| => NewOption(form.options[i])),
      CreatorFor(user),
      createdAt,
      Some(0),
      true,
      Some([]))
  }

  /** `[newPoll, ...existingPolls]`. */
  function Submit(form: PollForm, user: Option<User>, now: nat, createdAt: string, existing: seq<ClientPoll>)
    : (polls: seq<ClientPoll>)
    ensures |polls| == |existing| + 1
    ensures polls[0] == NewPoll(form, user, now, createdAt)
    ensures polls[1..] == existing
  {
    [NewPoll(form, user, now, createdAt)] + existing
  }

  lemma {:induction false} ZeroVotesSum(opts: seq<ClientOption>)
    requires forall o :: o in opts ==> o.votes == Some(0)
    ensures VoteSum(opts) == 0
  {
    if opts != [] {
      ZeroVotesSum(opts[1..]);
    }
  }

  /** A new poll starts with both tally invariants, no voters and zeroed
      sentiment counters. */
  lemma NewPollConsistent(form: PollForm, user: Option<User>, now: nat, createdAt: string)
    ensures ClientTalliesConsistent(NewPoll(form, user, now, createdAt))
    ensures VoterList(NewPoll(form, user, now, createdAt)) == []
  {
    var p := NewPoll(form, user, now, createdAt);
    ZeroVotesSum(p.options);
  }

  // ---------------------------------------------------------------------
  // Repeated ids

  /** Add a third option, remove "1", add again: the new option gets id "3",
      which the list already holds. */
  lemma RemoveThenAddRepeatsId()
    ensures FormIds(AddOption(RemoveOption(AddOption(InitialForm()), "1")).options) == ["2", "3", "3"]
  {
    var f3 := AddOption(InitialForm());
    assert DecimalString(3) == "3";
    assert FormIds(f3.options) == ["1", "2", "3"];
    var f2 := RemoveOption(f3, "1");
    assert f2.options == f3.options[1..];
  }

  /** With the repeated id, one more removal leaves a single option, below
      the two the form is meant to keep. */
  lemma RepeatedIdLetsRemovalDropBelowTwo()
    ensures |RemoveOption(AddOption(RemoveOption(AddOption(InitialForm()), "1")), "3").options| == 1
  {
    RemoveThenAddRepeatsId();
    var f := AddOption(RemoveOption(AddOption(InitialForm()), "1"));
    assert WithoutId(f.options, "3") == [f.options[0]];
  }

  /** The form of `RemoveThenAddRepeatsId` after the user fills in the
      required title and option texts: typing into either option "3" edits
      both, and the ids stay "2", "3", "3". */
  lemma FilledFormKeepsRepeatedId(title: string, a: string, b: string)
    ensures
      var f := HandleOptionChange(HandleOptionChange(
        AddOption(RemoveOption(AddOption(InitialForm()), "1")).(title := title), "2", a), "3", b);
      && f.title == title
      && FormIds(f.options) == ["2", "3", "3"]
      && f.options[0].text == a && f.options[1].text == b && f.options[2].text == b
  {
    RemoveThenAddRepeatsId();
  }

  /** Any form whose option ids are "2", "3", "3" (the one above, with any
      title, description and texts) yields a poll that counts a vote for "3"
      twice among the options but once in `totalVotes`, so the tally
      invariant breaks. */
  lemma RepeatedIdBreaksTallies(form: PollForm, user: Option<User>, now: nat, createdAt: string, voter: string)
    requires FormIds(form.options) == ["2", "3", "3"]
    ensures
      var p := NewPoll(form, user, now, createdAt);
      && ClientTalliesConsistent(p)
      && !ClientTalliesConsistent(ViewPoll.ApplyVote(p, "3", voter))
  {
    var p := NewPoll(form, user, now, createdAt);
    NewPollConsistent(form, user, now, createdAt);
    var opts := p.options;
    assert |opts| == 3 && opts[0].id == "2" && opts[1].id == "3" && opts[2].id == "3";
    assert ViewPoll.CountMatching(opts[2..], "3") == 1 by {
      assert opts[2..][0].id == "3" && opts[2..][1..] == [];
    }
    assert ViewPoll.CountMatching(opts[1..], "3") == 2 by {
      assert opts[1..][0].id == "3" && opts[1..][1..] == opts[2..];
    }
    assert ViewPoll.CountMatching(opts, "3") == 2 by {
      assert opts[0].id != "3";
    }
    ViewPoll.ApplyVoteKeepsTalliesIffOneMatch(p, "3", voter);
  }

  // ---------------------------------------------------------------------
  // The form with an id counter

  /** The form plus the next number to issue as an option id. */
  datatype NumberedForm = NumberedForm(form: PollForm, nextId: nat)

  function IssuedIds(n: nat): set<string> {
    set k | 1 <= k < n :: DecimalString(k)
  }

  /** Every id was issued by the counter, no id repeats, and there are at
      least two options. */
  predicate WellNumbered(nf: NumberedForm) {
    && (forall o :: o in nf.form.options ==> o.id in IssuedIds(nf.nextId))
    && NoDuplicates(FormIds(nf.form.options))
    && |nf.form.options| >= 2
  }

  function InitialNumberedForm(): (nf: NumberedForm)
    ensures WellNumbered(nf)
    ensures nf.form == InitialForm()
  {
    assert DecimalString(1) in IssuedIds(3) && DecimalString(2) in IssuedIds(3);
    NumberedForm(InitialForm(), 3)
  }

  /** Adds an empty option with the counter's id and advances the counter. */
  function AddNumberedOption(nf: NumberedForm): (r: NumberedForm)
    requires WellNumbered(nf)
    ensures WellNumbered(r)
    ensures r.form.title == nf.form.title && r.form.description == nf.form.description
    ensures r.form.options == nf.form.options + [FormOption(DecimalString(nf.nextId), "")]
  {
    var newId := DecimalString(nf.nextId);
    assert newId !in FormIds(nf.form.options);
    var opts := nf.form.options + [FormOption(newId, "")];
    assert FormIds(opts) == FormIds(nf.form.options) + [newId];
    assert forall o :: o in opts ==> o.id in IssuedIds(nf.nextId + 1) by {
      forall o | o in opts ensures o.id in IssuedIds(nf.nextId + 1) {
        if o in nf.form.options {
          var k :| 1 <= k < nf.nextId && DecimalString(k) == o.id;
          assert 1 <= k < nf.nextId + 1;
        } else {
          assert nf.form.options[0] in nf.form.options;
          var k0 :| 1 <= k0 < nf.nextId && DecimalString(k0) == nf.form.options[0].id;
          assert o.id == DecimalString(nf.nextId) && 1 <= nf.nextId < nf.nextId + 1;
        }
      }
    }
    AppendFreshKeepsNoDuplicates(FormIds(nf.form.options), newId);
    NumberedForm(nf.form.(options := opts), nf.nextId + 1)
  }

  function RemoveNumberedOption(nf: NumberedForm, id: string): (r: NumberedForm)
    requires WellNumbered(nf)
    ensures WellNumbered(r)
    ensures r.form == RemoveOption(nf.form, id)
  {
    RemoveKeepsTwoWhenIdsDistinct(nf.form, id);
    NumberedForm(RemoveOption(nf.form, id), nf.nextId)
  }

  function ChangeNumberedOption(nf: NumberedForm, id: string, value: string): (r: NumberedForm)
    requires WellNumbered(nf)
    ensures WellNumbered(r)
    ensures r.form == HandleOptionChange(nf.form, id, value)
  {
    var r := NumberedForm(HandleOptionChange(nf.form, id, value), nf.nextId);
    assert forall o :: o in r.form.options ==> o.id in FormIds(nf.form.options);
    assert forall o :: o in r.form.options ==> o.id in IssuedIds(nf.nextId) by {
      forall o | o in r.form.options ensures o.id in IssuedIds(nf.nextId) {
        var i :| 0 <= i < |nf.form.options| && FormIds(nf.form.options)[i] == o.id;
        assert nf.form.options[i] in nf.form.options;
      }
    }
    r
  }

  /** A poll submitted from a well-numbered form keeps its tally invariant
      through any vote whose selection names one of its options. */
  lemma NumberedFormVotesCountOnce(nf: NumberedForm, user: Option<User>, now: nat, createdAt: string,
                                   selected: string, voter: string)
    requires WellNumbered(nf)
    requires selected in FormIds(nf.form.options)
    ensures ClientTalliesConsistent(ViewPoll.ApplyVote(NewPoll(nf.form, user, now, createdAt), selected, voter))
  {
    var p := NewPoll(nf.form, user, now, createdAt);
    NewPollConsistent(nf.form, user, now, createdAt);
    assert OptionIds(p.options) == FormIds(nf.form.options);
    ViewPoll.DistinctIdsMatchOnce(p.options, selected);
    ViewPoll.ApplyVoteKeepsTalliesIffOneMatch(p, selected, voter);
  }
}
