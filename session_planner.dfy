/** The session planner: training plans are dropped (or added from the
    plan's detail dialog) onto an ordered timeline, each entry with its own
    duration in minutes; entries can be removed, re-timed and expanded, and
    the whole timeline can be saved as a named session and loaded back.
    Each handler replaces one piece of component state, so the planner is a
    class whose methods change exactly the fields their handler sets. */
module SessionPlanner {
  import opened Lists
  import opened Text
  import opened Outcomes
  import TP = TrainingPlans

  /** One block of the session: a plan and how long it runs. */
  datatype TimelineItem = TimelineItem(id: string, trainingPlan: TP.TrainingPlan, duration: int)

  /** A saved snapshot of the timeline. */
  datatype SavedSession = SavedSession(
    id: string,
    name: string,
    items: seq<TimelineItem>,
    totalDuration: int,
    createdAt: string)

  /** Minutes given to a newly placed plan. */
  const DefaultDuration := 30

  function SessionId(s: SavedSession): string { s.id }

  /** The entry id `${plan.id}-${Date.now()}`; `stamp` is the clock reading. */
  function EntryId(planId: string, stamp: string): (id: string)
    ensures StartsWith(id, planId)
  {
    planId + "-" + stamp
  }

  /** The entry a drop or an "Add to Session" click creates. */
  function NewEntry(plan: TP.TrainingPlan, stamp: string): (e: TimelineItem)
    ensures e.trainingPlan == plan && e.duration == DefaultDuration
    ensures StartsWith(e.id, plan.id)
  {
    TimelineItem(EntryId(plan.id, stamp), plan, DefaultDuration)
  }

  /** `timeline.reduce((sum, item) => sum + item.duration, 0)`. */
  function TotalDuration(t: seq<TimelineItem>): int {
    if t == [] then 0 else t[0].duration + TotalDuration(t[1..])
  }

  /** `updated[index] = { ...updated[index], duration }`: entry `index` gets
      the new duration and keeps its id and plan; every other entry is the
      same. */
  function WithDuration(t: seq<TimelineItem>, index: int, d: int): (r: seq<TimelineItem>)
    requires 0 <= index < |t|
    ensures |r| == |t|
    ensures r[index].id == t[index].id && r[index].trainingPlan == t[index].trainingPlan
    ensures r[index].duration == d
    ensures forall j :: 0 <= j < |t| && j != index ==> r[j] == t[j]
  {
    t[index := t[index].(duration := d)]
  }

  /** The expanded set after `toggleExpand(index)`: `index` flips, nothing
      else does. */
  function Flip(s: set<int>, index: int): (r: set<int>)
    ensures index in r <==> index !in s
    ensures forall j :: j != index ==> (j in r <==> j in s)
  {
    if index in s then s - {index} else s + {index}
  }

  /** A click on a plan card: it closes the detail dialog when that plan is
      the one shown, and shows the plan otherwise. */
  function Clicked(selected: Option<TP.TrainingPlan>, plan: TP.TrainingPlan): (r: Option<TP.TrainingPlan>)
    ensures r == None <==> selected.Some? && selected.value.id == plan.id
    ensures r.Some? ==> r.value == plan
  {
    if selected.Some? && selected.value.id == plan.id then None else Some(plan)
  }

  /** The search over the available plans: the lower-cased query occurs in
      the lower-cased name or in the lower-cased description. */
  predicate Matches(p: TP.TrainingPlan, query: string) {
    Contains(ToLower(p.name), ToLower(query)) || Contains(ToLower(p.description), ToLower(query))
  }

  function VisiblePlans(plans: seq<TP.TrainingPlan>, query: string): (r: seq<TP.TrainingPlan>)
    ensures forall p :: p in r <==> p in plans && Matches(p, query)
    ensures |r| <= |plans|
  {
    if plans == [] then []
    else (if Matches(plans[0], query) then [plans[0]] else []) + VisiblePlans(plans[1..], query)
  }

  /** An empty search shows every plan, in order. */
  lemma {:induction false} EmptySearchShowsAll(plans: seq<TP.TrainingPlan>)
    ensures VisiblePlans(plans, "") == plans
  {
    if plans != [] {
      ContainsEmpty(ToLower(plans[0].name));
      EmptySearchShowsAll(plans[1..]);
    }
  }

  /** The total of two timelines laid end to end. */
  lemma {:induction false} TotalConcat(a: seq<TimelineItem>, b: seq<TimelineItem>)
    ensures TotalDuration(a + b) == TotalDuration(a) + TotalDuration(b)
  {
    if a == [] {
      assert a + b == b;
    } else {
      assert (a + b)[1..] == a[1..] + b;
      TotalConcat(a[1..], b);
    }
  }

  /** Appending an entry adds its duration: a drop adds 30 minutes. */
  lemma TotalAppend(t: seq<TimelineItem>, e: TimelineItem)
    ensures TotalDuration(t + [e]) == TotalDuration(t) + e.duration
  {
    TotalConcat(t, [e]);
  }

  /** The total of a timeline split at `index`: what comes before, entry
      `index`, and what comes after. */
  lemma {:induction false} TotalSplit(t: seq<TimelineItem>, index: int)
    requires 0 <= index < |t|
    ensures TotalDuration(t) ==
      TotalDuration(t[..index]) + t[index].duration + TotalDuration(t[index + 1..])
  {
    TotalConcat(t[..index], t[index..]);
    assert t[..index] + t[index..] == t;
    assert t[index..][1..] == t[index + 1..];
  }

  /** Removing entry `index` subtracts its duration; an index outside the
      timeline changes nothing. */
  lemma {:induction false} TotalRemoveIndex(t: seq<TimelineItem>, index: int)
    ensures TotalDuration(RemoveIndex(t, index)) ==
      if 0 <= index < |t| then TotalDuration(t) - t[index].duration else TotalDuration(t)
  {
    if 0 <= index < |t| {
      TotalConcat(t[..index], t[index + 1..]);
      TotalSplit(t, index);
    }
  }

  /** Re-timing entry `index` to `d` changes the total by `d` minus its old
      duration. */
  lemma {:induction false} TotalUpdate(t: seq<TimelineItem>, index: int, d: int)
    requires 0 <= index < |t|
    ensures TotalDuration(WithDuration(t, index, d)) == TotalDuration(t) - t[index].duration + d
  {
    var r := WithDuration(t, index, d);
    TotalSplit(t, index);
    TotalSplit(r, index);
    assert r[..index] == t[..index];
    assert r[index + 1..] == t[index + 1..];
  }

  /** Toggling the same index twice restores the expanded set. */
  lemma FlipTwice(s: set<int>, index: int)
    ensures Flip(Flip(s, index), index) == s
  {
  }

  /** Placing the same plan twice gives two separate entries: both hold the
      plan and its default duration, and their ids differ whenever the two
      clock readings do. */
  lemma PlaceTwiceNoDedup(t: seq<TimelineItem>, plan: TP.TrainingPlan, s1: string, s2: string)
    requires s1 != s2
    ensures var r := t + [NewEntry(plan, s1)] + [NewEntry(plan, s2)];
      && |r| == |t| + 2 && r[..|t|] == t
      && r[|t|].trainingPlan == plan && r[|t| + 1].trainingPlan == plan
      && r[|t|].duration == DefaultDuration && r[|t| + 1].duration == DefaultDuration
      && r[|t|].id != r[|t| + 1].id
  {
    var p := plan.id + "-";
    assert EntryId(plan.id, s1)[|p|..] == s1;
    assert EntryId(plan.id, s2)[|p|..] == s2;
  }

  class Planner {
    /** The plans available to place, as loaded from storage. */
    var trainingPlans: seq<TP.TrainingPlan>
    var timeline: seq<TimelineItem>
    /** Indices of the timeline cards whose plan contents are shown. */
    var expandedItems: set<int>
    var savedSessions: seq<SavedSession>
    var sessionName: string
    /** The plan whose detail dialog is open. */
    var selectedPlan: Option<TP.TrainingPlan>

    constructor (stored: seq<TP.TrainingPlan>)
      ensures trainingPlans == stored && timeline == [] && expandedItems == {}
      ensures savedSessions == [] && sessionName == "" && selectedPlan == None
    {
      trainingPlans := stored;
      timeline := [];
      expandedItems := {};
      savedSessions := [];
      sessionName := "";
      selectedPlan := None;
    }

    /** The drop handler: the dropped plan goes at the end of the timeline
        with the default duration; earlier entries stay as they were. */
    method Drop(plan: TP.TrainingPlan, stamp: string)
      modifies this`timeline
      ensures timeline == old(timeline) + [NewEntry(plan, stamp)]
      ensures TotalDuration(timeline) == old(TotalDuration(timeline)) + DefaultDuration
    {
      TotalAppend(timeline, NewEntry(plan, stamp));
      timeline := timeline + [NewEntry(plan, stamp)];
    }

    /** The dialog's "Add to Session" button: the shown plan is appended as
        a drop would append it, and the dialog closes. */
    method AddSelectedToSession(stamp: string)
      requires selectedPlan.Some?
      modifies this`timeline, this`selectedPlan
      ensures timeline == old(timeline) + [NewEntry(old(selectedPlan).value, stamp)]
      ensures TotalDuration(timeline) == old(TotalDuration(timeline)) + DefaultDuration
      ensures selectedPlan == None
    {
      var entry := NewEntry(selectedPlan.value, stamp);
      TotalAppend(timeline, entry);
      timeline := timeline + [entry];
      selectedPlan := None;
    }

    /** `removeFromTimeline`: only position `index` goes, the rest keep
        their order; the expanded indices are not shifted. */
    method RemoveFromTimeline(index: int)
      modifies this`timeline
      ensures timeline == RemoveIndex(old(timeline), index)
      ensures TotalDuration(timeline) ==
        if 0 <= index < |old(timeline)| then old(TotalDuration(timeline)) - old(timeline[index].duration)
        else old(TotalDuration(timeline))
    {
      TotalRemoveIndex(timeline, index);
      timeline := RemoveIndex(timeline, index);
    }

    /** `updateDuration`: the list is copied and one slot of the copy is
        overwritten. Any integer is accepted, zero and negatives included. */
    method UpdateDuration(index: int, d: int)
      requires 0 <= index < |timeline|
      modifies this`timeline
      ensures timeline == WithDuration(old(timeline), index, d)
      ensures TotalDuration(timeline) == old(TotalDuration(timeline)) - old(timeline[index].duration) + d
    {
      TotalUpdate(timeline, index, d);
      var updated := timeline;
      updated := updated[index := updated[index].(duration := d)];
      timeline := updated;
    }

    /** `toggleExpand`: a copy of the set has `index` deleted or added. */
    method ToggleExpand(index: int)
      modifies this`expandedItems
      ensures expandedItems == Flip(old(expandedItems), index)
    {
      var s := expandedItems;
      if index in s {
        s := s - {index};
      } else {
        s := s + {index};
      }
      expandedItems := s;
    }

    /** A click on an available plan's card. */
    method ClickPlan(plan: TP.TrainingPlan)
      modifies this`selectedPlan
      ensures selectedPlan == Clicked(old(selectedPlan), plan)
    {
      selectedPlan := Clicked(selectedPlan, plan);
    }

    /** The dialog's close button and backdrop. */
    method CloseDetails()
      modifies this`selectedPlan
      ensures selectedPlan == None
    {
      selectedPlan := None;
    }

    method SetSessionName(name: string)
      modifies this`sessionName
      ensures sessionName == name
    {
      sessionName := name;
    }

    /** `handleSaveSession`. A blank or whitespace-only name is refused and
        nothing changes. Otherwise the snapshot, holding the timeline and
        its total at this moment, goes in front of the saved sessions and
        the name field is cleared. `id` and `createdAt` are the clock
        readings the source takes. */
    method SaveSession(id: string, createdAt: string) returns (ok: bool)
      modifies this`savedSessions, this`sessionName
      ensures ok <==> !IsBlank(old(sessionName))
      ensures ok ==>
        && savedSessions == [SavedSession(id, old(sessionName), timeline, TotalDuration(timeline), createdAt)]
                              + old(savedSessions)
        && sessionName == ""
      ensures !ok ==> savedSessions == old(savedSessions) && sessionName == old(sessionName)
    {
      TrimEmptyIffBlank(sessionName);
      if Trim(sessionName) == "" {
        return false;
      }
      var session := SavedSession(id, sessionName, timeline, TotalDuration(timeline), createdAt);
      savedSessions := [session] + savedSessions;
      sessionName := "";
      return true;
    }

    /** `handleLoadSession`: the timeline becomes exactly the stored items. */
    method LoadSession(session: SavedSession)
      modifies this`timeline
      ensures timeline == session.items
    {
      timeline := session.items;
    }

    /** `handleDeleteSession`: exactly the sessions with that id go. */
    method DeleteSession(sessionId: string)
      modifies this`savedSessions
      ensures forall s :: s in savedSessions <==> s in old(savedSessions) && s.id != sessionId
      ensures savedSessions == WithoutKey(old(savedSessions), SessionId, sessionId)
      ensures |savedSessions| <= |old(savedSessions)|
    {
      savedSessions := WithoutKey(savedSessions, SessionId, sessionId);
    }
  }
}
