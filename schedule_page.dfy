// The communication scheduling page: recipient toggling, template choice by channel
// and the state the form submits.

module SchedulePage {
  import opened Options
  import opened Text
  import opened CommunicationTemplates

  // ---------------------------------------------------------------------------
  // Recipient toggling

  /** `xs` with every occurrence of `id` removed, the rest in order. */
  function Without(xs: seq<string>, id: string): (r: seq<string>)
    ensures |r| <= |xs|
    ensures forall x :: x in r <==> x in xs && x != id
  {
    if xs == [] then []
    else (if xs[0] == id then [] else [xs[0]]) + Without(xs[1..], id)
  }

  /** The state updater of `handleCustomerToggle`: a selected id is deselected, any
      other id is appended. */
  function Toggle(prev: seq<string>, id: string): (r: seq<string>)
    ensures id in r <==> id !in prev
    ensures forall x | x != id :: x in r <==> x in prev
  {
    if id in prev then Without(prev, id) else prev + [id]
  }

  predicate NoDuplicates(xs: seq<string>) {
    forall i, j | 0 <= i < j < |xs| :: xs[i] != xs[j]
  }

  /** Removal keeps the order: it distributes over concatenation. */
  lemma {:induction false} WithoutAppend(a: seq<string>, b: seq<string>, id: string)
    ensures Without(a + b, id) == Without(a, id) + Without(b, id)
    decreases |a|
  {
    if a == [] {
      assert a + b == b;
    } else {
      assert (a + b)[1..] == a[1..] + b;
      WithoutAppend(a[1..], b, id);
    }
  }

  /** Removing an id that does not occur changes nothing. */
  lemma {:induction false} WithoutAbsent(xs: seq<string>, id: string)
    requires id !in xs
    ensures Without(xs, id) == xs
    decreases |xs|
  {
    if xs != [] {
      assert xs[0] != id && id !in xs[1..];
      WithoutAbsent(xs[1..], id);
    }
  }

  /** An absent id is appended at the end. */
  lemma ToggleAbsent(prev: seq<string>, id: string)
    requires id !in prev
    ensures Toggle(prev, id) == prev + [id]
  {
  }

  /** Removing an id from the one-element list of it leaves nothing. */
  lemma WithoutSelf(id: string)
    ensures Without([id], id) == []
  {
    assert [id][1..] == [];
  }

  /** A present id loses every occurrence; the other ids keep their order. */
  lemma TogglePresent(prev: seq<string>, a: seq<string>, b: seq<string>, id: string)
    requires prev == a + [id] + b
    ensures Toggle(prev, id) == Without(a, id) + Without(b, id)
  {
    assert prev[|a|] == id;
    WithoutAppend(a + [id], b, id);
    WithoutAppend(a, [id], id);
    WithoutSelf(id);
    var wa, wb := Without(a, id), Without(b, id);
    assert Without(a + [id], id) == wa;
    assert Without(prev, id) == wa + wb;
  }

  /** Toggling an absent id twice restores the list. */
  lemma ToggleTwice(prev: seq<string>, id: string)
    requires id !in prev
    ensures Toggle(Toggle(prev, id), id) == prev
  {
    WithoutAppend(prev, [id], id);
    WithoutAbsent(prev, id);
    WithoutSelf(id);
  }

  lemma NoDuplicatesCons(x: string, xs: seq<string>)
    requires x !in xs && NoDuplicates(xs)
    ensures NoDuplicates([x] + xs)
  {
    var s := [x] + xs;
    forall i, j | 0 <= i < j < |s| ensures s[i] != s[j] {
      assert s[j] == xs[j - 1];
      if i > 0 {
        assert s[i] == xs[i - 1];
      }
    }
  }

  lemma {:induction false} WithoutNoDuplicates(xs: seq<string>, id: string)
    requires NoDuplicates(xs)
    ensures NoDuplicates(Without(xs, id))
    decreases |xs|
  {
    if xs != [] {
      var tail := xs[1..];
      assert NoDuplicates(tail) by {
        forall i, j | 0 <= i < j < |tail| ensures tail[i] != tail[j] {
          assert tail[i] == xs[i + 1] && tail[j] == xs[j + 1];
        }
      }
      WithoutNoDuplicates(tail, id);
      if xs[0] != id {
        assert xs[0] !in tail by {
          forall j | 0 <= j < |tail| ensures tail[j] != xs[0] {
            assert tail[j] == xs[j + 1];
          }
        }
        NoDuplicatesCons(xs[0], Without(tail, id));
      }
    }
  }

  /** Toggling keeps a list without duplicates free of them. */
  lemma ToggleNoDuplicates(prev: seq<string>, id: string)
    requires NoDuplicates(prev)
    ensures NoDuplicates(Toggle(prev, id))
  {
    if id in prev {
      WithoutNoDuplicates(prev, id);
    } else {
      var r := prev + [id];
      forall i, j | 0 <= i < j < |r| ensures r[i] != r[j] {
        assert r[i] == prev[i];
        if j < |prev| {
          assert r[j] == prev[j];
        }
      }
    }
  }

  // ---------------------------------------------------------------------------
  // Templates by channel and by id

  /** The templates of one channel, in registry order. */
  function OfChannel(ts: seq<CommunicationTemplate>, channel: Channel): (r: seq<CommunicationTemplate>)
    ensures |r| <= |ts|
    ensures forall t :: t in r <==> t in ts && t.channel == channel
  {
    if ts == [] then []
    else (if ts[0].channel == channel then [ts[0]] else []) + OfChannel(ts[1..], channel)
  }

  lemma {:induction false} OfChannelAppend(a: seq<CommunicationTemplate>, b: seq<CommunicationTemplate>, channel: Channel)
    ensures OfChannel(a + b, channel) == OfChannel(a, channel) + OfChannel(b, channel)
    decreases |a|
  {
    if a == [] {
      assert a + b == b;
    } else {
      assert (a + b)[1..] == a[1..] + b;
      OfChannelAppend(a[1..], b, channel);
    }
  }

  /** Every template is listed under exactly its own channel: the three channel lists
      together have as many entries as the registry. */
  lemma {:induction false} ChannelsPartition(ts: seq<CommunicationTemplate>)
    ensures |OfChannel(ts, Email)| + |OfChannel(ts, Sms)| + |OfChannel(ts, Phone)| == |ts|
    decreases |ts|
  {
    if ts != [] {
      ChannelsPartition(ts[1..]);
    }
  }

  /** The first template with the id, as `Array.prototype.find` returns it. */
  function Find(ts: seq<CommunicationTemplate>, id: string): (r: Option<CommunicationTemplate>)
    ensures r.None? <==> forall i | 0 <= i < |ts| :: ts[i].id != id
    ensures r.Some? ==> exists i | 0 <= i < |ts| ::
      (ts[i] == r.value && r.value.id == id && forall j | 0 <= j < i :: ts[j].id != id)
  {
    if ts == [] then None
    else if ts[0].id == id then Some(ts[0])
    else
      var r := Find(ts[1..], id);
      assert forall i | 0 <= i < |ts[1..]| :: ts[1..][i] == ts[i + 1];
      r
  }

  /** With unique ids, the template found for one of them is the one at its index. */
  lemma FindUnique(ts: seq<CommunicationTemplate>, i: nat)
    requires i < |ts|
    requires forall j, k | 0 <= j < k < |ts| :: ts[j].id != ts[k].id
    ensures Find(ts, ts[i].id) == Some(ts[i])
  {
    var r := Find(ts, ts[i].id);
    var k :| 0 <= k < |ts| && ts[k] == r.value && r.value.id == ts[i].id
      && forall j | 0 <= j < k :: ts[j].id != ts[i].id;
    assert k == i;
  }

  /** Each id of the registry selects its own template. */
  lemma RegistryFindsOwn(i: nat)
    requires i < |RegistryAsWritten|
    ensures Find(RegistryAsWritten, RegistryAsWritten[i].id) == Some(RegistryAsWritten[i])
  {
    RegistryIdsUnique();
    FindUnique(RegistryAsWritten, i);
  }

  /** The initial selection "default" is no registry id. */
  lemma DefaultIsNoTemplate()
    ensures Find(RegistryAsWritten, "default") == None
  {
    var ts := RegistryAsWritten;
    assert forall i | 0 <= i < |ts| :: ts[i].id != "default";
  }

  /** The schedule timestamp sent with the form: none when sending now, else the date
      and the time joined by a `T`. */
  function Timestamp(sendNow: bool, date: string, time: string): (r: Option<string>)
    ensures r.None? <==> sendNow
    ensures r.Some? ==>
      (|r.value| == |date| + 1 + |time| && r.value[..|date|] == date
       && r.value[|date|] == 'T' && r.value[|date| + 1..] == time)
  {
    if sendNow then None else Some(date + "T" + time)
  }

  lemma SplitPair(a: string, sep: char, b: string)
    requires sep !in a && sep !in b
    ensures Split(a + [sep] + b, sep) == [a, b]
  {
    SplitCons(a, sep, b);
    SplitNone(b, sep);
  }

  /** A scheduled timestamp splits back into its date and time when neither holds a
      `T`. */
  lemma TimestampSplits(date: string, time: string)
    requires 'T' !in date && 'T' !in time
    ensures Split(Timestamp(false, date, time).value, 'T') == [date, time]
  {
    SplitPair(date, 'T', time);
  }

  // ---------------------------------------------------------------------------
  // The page state

  /** The form state the page keeps in React state hooks. */
  class ScheduleForm {
    var selectedCustomers: seq<string>
    var channel: Channel
    var selectedTemplate: string
    var subject: string
    var content: string
    var scheduleDate: string
    var scheduleTime: string
    var sendNow: bool
    var isSubmitting: bool

    /** The initial state of the page. */
    constructor ()
      ensures selectedCustomers == [] && channel == Email && selectedTemplate == "default"
      ensures subject == "" && content == "" && scheduleDate == "" && scheduleTime == ""
      ensures !sendNow && !isSubmitting
    {
      selectedCustomers := [];
      channel := Email;
      selectedTemplate := "default";
      subject := "";
      content := "";
      scheduleDate := "";
      scheduleTime := "";
      sendNow := false;
      isSubmitting := false;
    }

    /** `availableTemplates`: the registry templates of the chosen channel, as
        lib/communication-templates.ts spells them. */
    function AvailableTemplates(): (r: seq<CommunicationTemplate>)
      reads this
      ensures forall t :: t in r <==> t in RegistryAsWritten && t.channel == channel
    {
      OfChannel(RegistryAsWritten, channel)
    }

    /** The submit button is disabled while submitting or while no recipient is chosen. */
    predicate SubmitDisabled()
      reads this
    {
      isSubmitting || |selectedCustomers| == 0
    }

    /** The schedule date the submission carries. */
    function ScheduledAt(): Option<string>
      reads this
    {
      Timestamp(sendNow, scheduleDate, scheduleTime)
    }

    /** `handleCustomerToggle`. */
    method ToggleCustomer(id: string)
      modifies this
      ensures selectedCustomers == Toggle(old(selectedCustomers), id)
      ensures channel == old(channel) && selectedTemplate == old(selectedTemplate)
      ensures subject == old(subject) && content == old(content)
      ensures scheduleDate == old(scheduleDate) && scheduleTime == old(scheduleTime)
      ensures sendNow == old(sendNow) && isSubmitting == old(isSubmitting)
    {
      selectedCustomers := Toggle(selectedCustomers, id);
    }

    /** `handleTemplateSelect`: a registry id fills subject and content from its
        template, as lib/communication-templates.ts spells it; any other id clears
        the selection and both texts. */
    method SelectTemplate(templateId: string)
      modifies this
      ensures Find(RegistryAsWritten, templateId).Some? ==>
        selectedTemplate == templateId
        && subject == Find(RegistryAsWritten, templateId).value.Subject()
        && content == Find(RegistryAsWritten, templateId).value.Content()
      ensures Find(RegistryAsWritten, templateId).None? ==>
        selectedTemplate == "" && subject == "" && content == ""
      ensures selectedCustomers == old(selectedCustomers) && channel == old(channel)
      ensures scheduleDate == old(scheduleDate) && scheduleTime == old(scheduleTime)
      ensures sendNow == old(sendNow) && isSubmitting == old(isSubmitting)
    {
      var template := Find(RegistryAsWritten, templateId);
      if template.Some? {
        selectedTemplate := templateId;
        subject := template.value.Subject();
        content := template.value.Content();
      } else {
        selectedTemplate := "";
        subject := "";
        content := "";
      }
    }
  }

  /** Selecting a recipient who was not chosen yet enables the submit button while
      the form is not submitting. */
  method ToggleEnablesSubmit(form: ScheduleForm, id: string)
    requires id !in form.selectedCustomers && !form.isSubmitting
    modifies form
    ensures !form.SubmitDisabled()
    ensures form.selectedCustomers == old(form.selectedCustomers) + [id]
  {
    form.ToggleCustomer(id);
    ToggleAbsent(old(form.selectedCustomers), id);
  }
}
