/** The training builder: a training session is a date, a time window, a
    focus, an intensity, two player lists (available and absent) and an
    ordered list of exercise ids. The form edits those lists; the
    exercise list is reordered by dragging, which copies the list and
    splices it twice. Saved trainings are appended, replaced by id and
    filtered out by id. */
module TrainingBuilder {
  import opened Lists
  import opened Outcomes

  datatype Intensity = Low | Medium | High

  datatype Training = Training(
    id: string,
    date: string,
    startTime: string,
    endTime: string,
    focus: string,
    intensity: Intensity,
    availablePlayers: seq<string>,
    absentPlayers: seq<string>,
    exercises: seq<string>,
    isCustom: bool)

  /** The form's fields; every handler sets all of them, so none is ever
      missing. */
  datatype Form = Form(
    date: string,
    startTime: string,
    endTime: string,
    focus: string,
    intensity: Intensity,
    availablePlayers: seq<string>,
    absentPlayers: seq<string>,
    exercises: seq<string>)

  /** The component state the handlers replace. */
  datatype Builder = Builder(
    trainings: seq<Training>,
    selectedTraining: Option<Training>,
    isEditing: bool,
    form: Form)

  datatype PlayerList = Available | Absent

  function TrainingId(t: Training): string { t.id }

  /** The form `resetForm` (and the initial state) sets up: `today` is the
      ISO date of the clock; the session runs 09:00 to 11:00 at medium
      intensity with nobody and nothing in it. */
  function DefaultForm(today: string): (f: Form)
    ensures f.date == today && f.startTime == "09:00" && f.endTime == "11:00"
    ensures f.focus == "" && f.intensity == Medium
    ensures f.availablePlayers == [] && f.absentPlayers == [] && f.exercises == []
  {
    Form(today, "09:00", "11:00", "", Medium, [], [], [])
  }

  function Players(f: Form, list: PlayerList): seq<string> {
    match list
    case Available => f.availablePlayers
    case Absent => f.absentPlayers
  }

  function Other(list: PlayerList): PlayerList {
    match list
    case Available => Absent
    case Absent => Available
  }

  /** No player is both available and absent. */
  predicate Disjoint(f: Form) {
    forall p :: p in f.availablePlayers ==> p !in f.absentPlayers
  }

  /** `togglePlayer(playerId, list)`. A player already in the chosen list
      leaves it and the other list is untouched; otherwise the player joins
      the end of the chosen list and leaves the other one. Nobody else
      moves, and only the two player lists change. */
  function TogglePlayer(f: Form, playerId: string, list: PlayerList): (r: Form)
    ensures playerId in Players(r, list) <==> playerId !in Players(f, list)
    ensures playerId in Players(f, list) ==> Players(r, Other(list)) == Players(f, Other(list))
    ensures playerId !in Players(f, list) ==>
      Players(r, list) == Players(f, list) + [playerId] && playerId !in Players(r, Other(list))
    ensures forall q, k :: q != playerId ==> (q in Players(r, k) <==> q in Players(f, k))
    ensures r.(availablePlayers := f.availablePlayers, absentPlayers := f.absentPlayers) == f
  {
    match list
    case Available =>
      if playerId in f.availablePlayers then
        f.(availablePlayers := Without(f.availablePlayers, playerId))
      else
        f.(availablePlayers := f.availablePlayers + [playerId],
           absentPlayers := Without(f.absentPlayers, playerId))
    case Absent =>
      if playerId in f.absentPlayers then
        f.(absentPlayers := Without(f.absentPlayers, playerId))
      else
        f.(absentPlayers := f.absentPlayers + [playerId],
           availablePlayers := Without(f.availablePlayers, playerId))
  }

  /** The toggles keep the two lists apart. */
  lemma TogglePlayerKeepsDisjoint(f: Form, playerId: string, list: PlayerList)
    requires Disjoint(f)
    ensures Disjoint(TogglePlayer(f, playerId, list))
  {
    var r := TogglePlayer(f, playerId, list);
    forall p | p in r.availablePlayers ensures p !in r.absentPlayers {
      assert p in Players(r, Available);
      if p == playerId {
        assert list == Available ==> p !in Players(r, Other(list));
        assert list == Absent ==> p !in Players(r, list);
      }
    }
  }

  /** ... and each of them free of repeats. */
  lemma TogglePlayerNoDup(f: Form, playerId: string, list: PlayerList)
    requires NoDup(f.availablePlayers) && NoDup(f.absentPlayers)
    ensures var r := TogglePlayer(f, playerId, list);
      NoDup(r.availablePlayers) && NoDup(r.absentPlayers)
  {
    WithoutNoDup(f.availablePlayers, playerId);
    WithoutNoDup(f.absentPlayers, playerId);
    ToggledNoDup(f.availablePlayers, playerId);
    ToggledNoDup(f.absentPlayers, playerId);
  }

  /** `addExercise`: the id is appended unless it is already there. */
  function AddExercise(f: Form, exerciseId: string): (r: Form)
    ensures exerciseId in r.exercises
    ensures exerciseId in f.exercises ==> r == f
    ensures exerciseId !in f.exercises ==> r.exercises == f.exercises + [exerciseId]
    ensures r.(exercises := f.exercises) == f
  {
    if exerciseId !in f.exercises then f.(exercises := f.exercises + [exerciseId]) else f
  }

  /** Adding twice is adding once. */
  lemma AddExerciseIdempotent(f: Form, exerciseId: string)
    ensures AddExercise(AddExercise(f, exerciseId), exerciseId) == AddExercise(f, exerciseId)
  {
  }

  /** The exercise list stays free of repeats under adding. */
  lemma AddExerciseNoDup(f: Form, exerciseId: string)
    requires NoDup(f.exercises)
    ensures NoDup(AddExercise(f, exerciseId).exercises)
  {
    ToggledNoDup(f.exercises, exerciseId);
  }

  /** `removeExercise(index)`: only position `index` goes (see
      `Lists.RemoveIndex`). */
  function RemoveExercise(f: Form, index: int): (r: Form)
    ensures 0 <= index < |f.exercises| ==>
      r.exercises == f.exercises[..index] + f.exercises[index + 1..]
    ensures !(0 <= index < |f.exercises|) ==> r == f
    ensures r.(exercises := f.exercises) == f
  {
    f.(exercises := RemoveIndex(f.exercises, index))
  }

  /** Removing keeps the exercise list free of repeats. */
  lemma RemoveExerciseNoDup(f: Form, index: int)
    requires NoDup(f.exercises)
    ensures NoDup(RemoveExercise(f, index).exercises)
  {
    var s := f.exercises;
    if 0 <= index < |s| {
      var r := RemoveExercise(f, index).exercises;
      forall i, j | 0 <= i < j < |r| ensures r[i] != r[j] {
        var i' := if i < index then i else i + 1;
        var j' := if j < index then j else j + 1;
        assert r[i] == s[i'] && r[j] == s[j'];
      }
    }
  }

  /** The list after `splice(from, 1)`: position `from` taken out. */
  function Spliced<T>(s: seq<T>, from: int): (r: seq<T>)
    requires 0 <= from < |s|
    ensures |r| == |s| - 1
    ensures forall j :: 0 <= j < |r| ==> r[j] == if j < from then s[j] else s[j + 1]
  {
    s[..from] + s[from + 1..]
  }

  /** The list after `splice(from, 1)` then `splice(to, 0, removed)`. */
  function Moved<T>(s: seq<T>, from: int, to: int): (r: seq<T>)
    requires 0 <= from < |s| && 0 <= to < |s|
    ensures |r| == |s|
    ensures r[to] == s[from]
  {
    var rest := Spliced(s, from);
    rest[..to] + [s[from]] + rest[to..]
  }

  /** Position by position: before `to` the spliced list, at `to` the moved
      element, after it the spliced list shifted by one. */
  lemma MovedAt<T>(s: seq<T>, from: int, to: int, j: int)
    requires 0 <= from < |s| && 0 <= to < |s| && 0 <= j < |s|
    ensures Moved(s, from, to)[j] ==
      if j < to then Spliced(s, from)[j]
      else if j == to then s[from]
      else Spliced(s, from)[j - 1]
  {
  }

  /** Nothing is lost or duplicated by a move. */
  lemma MovedPermutation<T>(s: seq<T>, from: int, to: int)
    requires 0 <= from < |s| && 0 <= to < |s|
    ensures multiset(Moved(s, from, to)) == multiset(s)
  {
    InsertedMultiset(Spliced(s, from), to, s[from]);
    SplicedMultiset(s, from);
  }

  lemma InsertedMultiset<T>(a: seq<T>, i: int, x: T)
    requires 0 <= i <= |a|
    ensures multiset(a[..i] + [x] + a[i..]) == multiset(a) + multiset{x}
  {
    assert a[..i] + a[i..] == a;
  }

  lemma SplicedMultiset<T>(s: seq<T>, from: int)
    requires 0 <= from < |s|
    ensures multiset(Spliced(s, from)) + multiset{s[from]} == multiset(s)
  {
    assert s == s[..from] + [s[from]] + s[from + 1..];
  }

  /** Moving an element onto its own place changes nothing. */
  lemma MovedSelf<T>(s: seq<T>, i: int)
    requires 0 <= i < |s|
    ensures Moved(s, i, i) == s
  {
    assert Spliced(s, i)[..i] == s[..i];
    assert Spliced(s, i)[i..] == s[i + 1..];
    assert s[..i] + [s[i]] + s[i + 1..] == s;
  }

  /** Moving back undoes a move. */
  lemma MovedBack<T>(s: seq<T>, from: int, to: int)
    requires 0 <= from < |s| && 0 <= to < |s|
    ensures Moved(Moved(s, from, to), to, from) == s
  {
    var rest := Spliced(s, from);
    var r := Moved(s, from, to);
    assert r == rest[..to] + [s[from]] + rest[to..];
    assert r[..to] == rest[..to];
    assert r[to + 1..] == rest[to..];
    assert Spliced(r, to) == rest by {
      assert rest[..to] + rest[to..] == rest;
    }
    assert rest[..from] == s[..from];
    assert rest[from..] == s[from + 1..];
    assert s[..from] + [s[from]] + s[from + 1..] == s;
  }

  /** `a.splice(from, 1)` on a fixed-size array: the cells after `from`
      shift one place left; the last cell is left stale. */
  method SpliceOut(a: array<string>, from: int)
    requires 0 <= from < a.Length
    modifies a
    ensures a[..a.Length - 1] == Spliced(old(a[..]), from)
  {
    ghost var s := a[..];
    var n := a.Length;
    var k := from;
    while k < n - 1
      invariant from <= k <= n - 1
      invariant forall j :: 0 <= j < from ==> a[j] == s[j]
      invariant forall j :: from <= j < k ==> a[j] == s[j + 1]
      invariant forall j :: k <= j < n ==> a[j] == s[j]
    {
      a[k] := a[k + 1];
      k := k + 1;
    }
    assert forall j :: 0 <= j < n - 1 ==> a[..n - 1][j] == Spliced(s, from)[j];
  }

  /** `a.splice(to, 0, x)` on a fixed-size array whose last cell is free:
      the cells from `to` on shift one place right and `x` lands at `to`. */
  method SpliceIn(a: array<string>, to: int, x: string)
    requires 0 <= to < a.Length
    modifies a
    ensures forall j :: 0 <= j < a.Length ==>
      a[j] == if j < to then old(a[j]) else if j == to then x else old(a[j - 1])
  {
    var k := a.Length - 1;
    while k > to
      invariant to <= k <= a.Length - 1
      invariant forall j :: 0 <= j <= k ==> a[j] == old(a[j])
      invariant forall j :: k < j < a.Length ==> a[j] == old(a[j - 1])
    {
      a[k] := a[k - 1];
      k := k - 1;
    }
    a[to] := x;
  }

  /** `moveExercise(dragIndex, hoverIndex)`: the list is copied into a
      fresh array, the dragged id is spliced out and spliced back in at
      the hovered place. */
  method MoveExercise(f: Form, dragIndex: int, hoverIndex: int) returns (r: Form)
    requires 0 <= dragIndex < |f.exercises| && 0 <= hoverIndex < |f.exercises|
    ensures r.exercises == Moved(f.exercises, dragIndex, hoverIndex)
    ensures r.(exercises := f.exercises) == f
  {
    var s := f.exercises;
    var n := |s|;
    var current := new string[n](i requires 0 <= i < n => s[i]);
    assert current[..] == s;
    var removed := current[dragIndex];
    SpliceOut(current, dragIndex);
    ghost var mid := current[..];
    assert mid[..n - 1] == Spliced(s, dragIndex);
    SpliceIn(current, hoverIndex, removed);
    forall j | 0 <= j < n
      ensures current[j] == Moved(s, dragIndex, hoverIndex)[j]
    {
      MovedAt(s, dragIndex, hoverIndex, j);
      if j < hoverIndex {
        assert current[j] == mid[..n - 1][j];
      } else if j > hoverIndex {
        assert current[j] == mid[..n - 1][j - 1];
      }
    }
    r := f.(exercises := current[..]);
  }

  /** The hover rule of a dragged exercise card: over another card it
      moves the dragged id there and the drag now carries the hovered
      index; over its own card nothing happens. */
  method Hover(f: Form, draggedIndex: int, index: int) returns (r: Form, newDraggedIndex: int)
    requires 0 <= draggedIndex < |f.exercises| && 0 <= index < |f.exercises|
    ensures newDraggedIndex == index
    ensures r.exercises ==
      if draggedIndex != index then Moved(f.exercises, draggedIndex, index) else f.exercises
    ensures r.(exercises := f.exercises) == f
  {
    r, newDraggedIndex := f, draggedIndex;
    if draggedIndex != index {
      r := MoveExercise(f, draggedIndex, index);
      newDraggedIndex := index;
    }
  }

  /** The four fields the create and edit handlers demand. */
  predicate Filled(f: Form) {
    f.date != "" && f.startTime != "" && f.endTime != "" && f.focus != ""
  }

  /** The training a form describes, under a given id. */
  function FromForm(f: Form, id: string, isCustom: bool): (t: Training)
    ensures t.id == id && t.isCustom == isCustom
    ensures t.date == f.date && t.startTime == f.startTime && t.endTime == f.endTime
    ensures t.focus == f.focus && t.intensity == f.intensity
    ensures t.availablePlayers == f.availablePlayers && t.absentPlayers == f.absentPlayers
    ensures t.exercises == f.exercises
  {
    Training(id, f.date, f.startTime, f.endTime, f.focus, f.intensity,
             f.availablePlayers, f.absentPlayers, f.exercises, isCustom)
  }

  /** `handleCreateTraining`. Refused unless date, start time, end time and
      focus are all non-empty; otherwise the new custom training goes at
      the end of the list and the form is reset. `id` and `today` are the
      clock readings the source takes. */
  function CreateTraining(b: Builder, id: string, today: string): (r: Result<Builder>)
    ensures r.Rejected? <==> !Filled(b.form)
    ensures r.Ok? ==>
      && r.value.trainings == b.trainings + [FromForm(b.form, id, true)]
      && r.value.form == DefaultForm(today)
      && r.value.selectedTraining == b.selectedTraining && r.value.isEditing == b.isEditing
  {
    if !Filled(b.form) then
      Rejected("Please fill in all required fields")
    else
      Ok(b.(trainings := b.trainings + [FromForm(b.form, id, true)], form := DefaultForm(today)))
  }

  /** `handleEditTraining`. Refused unless the four fields are filled and a
      training is selected; otherwise every training with the selected id
      is replaced by the form's content under the selected training's id
      and custom flag, the others stay in place, the selection shows the
      new version and edit mode ends. */
  function EditTraining(b: Builder): (r: Result<Builder>)
    ensures r.Rejected? <==> !Filled(b.form) || b.selectedTraining.None?
    ensures r.Ok? ==>
      var sel := b.selectedTraining.value;
      var updated := FromForm(b.form, sel.id, sel.isCustom);
      && |r.value.trainings| == |b.trainings|
      && (forall i :: 0 <= i < |b.trainings| ==>
            r.value.trainings[i] == if b.trainings[i].id == sel.id then updated else b.trainings[i])
      && r.value.selectedTraining == Some(updated)
      && !r.value.isEditing && r.value.form == b.form
  {
    if !Filled(b.form) || b.selectedTraining.None? then
      Rejected("Please fill in all required fields")
    else
      var sel := b.selectedTraining.value;
      var updated := FromForm(b.form, sel.id, sel.isCustom);
      Ok(b.(trainings := ReplaceKey(b.trainings, TrainingId, sel.id, updated),
            selectedTraining := Some(updated), isEditing := false))
  }

  /** `handleDeleteTraining`: exactly the trainings with that id go and the
      selection is cleared. */
  function DeleteTraining(b: Builder, id: string): (r: Builder)
    ensures forall t :: t in r.trainings <==> t in b.trainings && t.id != id
    ensures r.trainings == WithoutKey(b.trainings, TrainingId, id)
    ensures r.selectedTraining == None
    ensures r.isEditing == b.isEditing && r.form == b.form
  {
    b.(trainings := WithoutKey(b.trainings, TrainingId, id), selectedTraining := None)
  }

  /** `startEditing`: the form takes the training's fields and edit mode
      begins. */
  function StartEditing(b: Builder, t: Training): (r: Builder)
    ensures r.form == Form(t.date, t.startTime, t.endTime, t.focus, t.intensity,
                           t.availablePlayers, t.absentPlayers, t.exercises)
    ensures r.isEditing
    ensures r.trainings == b.trainings && r.selectedTraining == b.selectedTraining
  {
    b.(form := Form(t.date, t.startTime, t.endTime, t.focus, t.intensity,
                    t.availablePlayers, t.absentPlayers, t.exercises),
       isEditing := true)
  }

  /** Editing then saving without touching the form gives back the same
      training, and when every listed training with that id is that very
      training the list comes back as it was. */
  lemma EditUnchangedIsIdentity(b: Builder, t: Training)
    requires Filled(StartEditing(b, t).form)
    requires b.selectedTraining == Some(t)
    requires forall u :: u in b.trainings && u.id == t.id ==> u == t
    ensures var r := EditTraining(StartEditing(b, t));
      r.Ok? && r.value.selectedTraining == Some(t) && r.value.trainings == b.trainings
  {
    var r := EditTraining(StartEditing(b, t));
    forall i | 0 <= i < |b.trainings| ensures r.value.trainings[i] == b.trainings[i] {
      assert b.trainings[i] in b.trainings;
    }
  }
}
