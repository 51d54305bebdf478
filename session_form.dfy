/** The REST-backed training-session form: a session records a date, a
    time window, a focus, an intensity, and which players and exercises
    take part, as lists of ids. The form toggles ids in and out of the two
    lists; the panels of players left out and exercises still to pick are
    the catalogues minus the selection. The lists travel to the backend
    as comma-joined text and are split again when a record comes back.
    Network outcomes are parameters: a save is planned as a request here
    and its response is applied by a separate step. */
module SessionForm {
  import opened Lists
  import opened CommaList
  import opened Outcomes

  datatype Player = Player(id: string, name: string)

  datatype Exercise = Exercise(id: string, name: string)

  datatype TrainingSession = TrainingSession(
    id: string,
    date: string,
    startTime: string,
    endTime: string,
    focus: string,
    intensity: string,
    selectedPlayers: seq<string>,
    selectedExercises: seq<string>)

  datatype FormData = FormData(
    date: string,
    startTime: string,
    endTime: string,
    focus: string,
    intensity: string,
    selectedPlayerIds: seq<string>,
    selectedExerciseIds: seq<string>)

  /** A session as the backend stores and returns it: the columns
      `start_time`, `end_time`, `selected_players` and
      `selected_exercises`, the last two as comma-joined text. */
  datatype Record = Record(
    id: string,
    date: string,
    startTime: string,
    endTime: string,
    focus: string,
    intensity: string,
    players: string,
    exercises: string)

  /** The body of a save request: a record without its id. */
  datatype Payload = Payload(
    date: string,
    startTime: string,
    endTime: string,
    focus: string,
    intensity: string,
    players: string,
    exercises: string)

  /** The two save requests: `PUT /training_sessions/{id}` and
      `POST /training_sessions`. */
  datatype Request = Put(id: string, body: Payload) | Post(body: Payload)

  /** What a save's `fetch` comes back with: it threw, it answered with an
      error status, or it answered with the stored record. */
  datatype Response = Failed | NotOk | Saved(record: Record)

  /** The component state the handlers read and replace. */
  datatype Editor = Editor(
    sessions: seq<TrainingSession>,
    allPlayers: seq<Player>,
    allExercises: seq<Exercise>,
    showCreateModal: bool,
    isEditing: bool,
    editingId: Option<string>,
    form: FormData)

  function PlayerId(p: Player): string { p.id }

  function ExerciseId(e: Exercise): string { e.id }

  function SessionId(s: TrainingSession): string { s.id }

  /** A record read back: `s.selected_players ? s.selected_players.split(',') : []`
      and the same for exercises; the other columns are copied. */
  function FromRecord(w: Record): (s: TrainingSession)
    ensures s.id == w.id && s.focus == w.focus
    ensures CommaFree(s.selectedPlayers) && CommaFree(s.selectedExercises)
    ensures s.selectedPlayers == [] <==> w.players == ""
    ensures s.selectedExercises == [] <==> w.exercises == ""
  {
    TrainingSession(w.id, w.date, w.startTime, w.endTime, w.focus, w.intensity,
                    Decode(w.players), Decode(w.exercises))
  }

  /** The save payload: the form's fields with both id lists joined by
      commas. */
  function BuildPayload(f: FormData): (p: Payload)
    ensures p.focus == f.focus && p.date == f.date
    ensures p.players == Encode(f.selectedPlayerIds) && p.exercises == Encode(f.selectedExerciseIds)
  {
    Payload(f.date, f.startTime, f.endTime, f.focus, f.intensity,
            Encode(f.selectedPlayerIds), Encode(f.selectedExerciseIds))
  }

  /** A backend that stores the payload's columns as they were sent under
      the given id. */
  function Stored(id: string, p: Payload): Record {
    Record(id, p.date, p.startTime, p.endTime, p.focus, p.intensity, p.players, p.exercises)
  }

  /** Ids are what the backend hands out: non-empty and free of commas. */
  predicate WellFormedIds(ids: seq<string>) {
    CommaFree(ids) && forall i :: 0 <= i < |ids| ==> ids[i] != ""
  }

  /** Round trip through the backend: when the stored columns are the ones
      sent, reading the record back gives the form's own two id lists. */
  lemma PayloadRoundTrip(f: FormData, id: string)
    requires WellFormedIds(f.selectedPlayerIds) && WellFormedIds(f.selectedExerciseIds)
    ensures var s := FromRecord(Stored(id, BuildPayload(f)));
      && s.selectedPlayers == f.selectedPlayerIds
      && s.selectedExercises == f.selectedExerciseIds
      && s.id == id && s.date == f.date && s.startTime == f.startTime
      && s.endTime == f.endTime && s.focus == f.focus && s.intensity == f.intensity
  {
    DecodeEncodeIds(f.selectedPlayerIds);
    DecodeEncodeIds(f.selectedExerciseIds);
  }

  /** `handleSave` up to the request. An empty focus is refused before any
      request; otherwise a PUT to the edited id goes out when editing with
      a non-empty id, and a POST in every other case. */
  function PlanSave(e: Editor): (r: Result<Request>)
    ensures r.Rejected? <==> e.form.focus == ""
    ensures r.Ok? ==> r.value.body == BuildPayload(e.form)
    ensures r.Ok? ==>
      (r.value.Put? <==> e.isEditing && e.editingId.Some? && e.editingId.value != "")
    ensures r.Ok? && r.value.Put? ==> r.value.id == e.editingId.value
  {
    if e.form.focus == "" then
      Rejected("Focus is required")
    else if e.isEditing && e.editingId.Some? && e.editingId.value != "" then
      Ok(Put(e.editingId.value, BuildPayload(e.form)))
    else
      Ok(Post(BuildPayload(e.form)))
  }

  /** `handleSave` after the response. Only a successful answer changes
      anything: when editing, every session with the returned id becomes
      the returned record and the others stay where they are; otherwise the
      record is appended. The dialog closes. */
  function ApplySaved(e: Editor, resp: Response): (r: Editor)
    ensures !resp.Saved? ==> r == e
    ensures resp.Saved? && e.isEditing ==>
      var s := FromRecord(resp.record);
      && |r.sessions| == |e.sessions|
      && forall i :: 0 <= i < |e.sessions| ==>
           r.sessions[i] == if e.sessions[i].id == s.id then s else e.sessions[i]
    ensures resp.Saved? && !e.isEditing ==> r.sessions == e.sessions + [FromRecord(resp.record)]
    ensures resp.Saved? ==> r == e.(sessions := r.sessions, showCreateModal := false)
  {
    match resp
    case Saved(w) =>
      var s := FromRecord(w);
      var sessions := if e.isEditing then ReplaceKey(e.sessions, SessionId, s.id, s) else e.sessions + [s];
      e.(sessions := sessions, showCreateModal := false)
    case _ => e
  }

  /** An edit that the backend answers leaves exactly one version of the
      session in the list when there was one before. */
  lemma EditKeepsOneVersion(e: Editor, w: Record)
    requires e.isEditing
    requires KeysUnique(e.sessions, SessionId)
    ensures KeysUnique(ApplySaved(e, Saved(w)).sessions, SessionId)
  {
  }

  /** `handleDelete`: the DELETE is awaited and its status ignored, so the
      session leaves the list whenever the backend answered at all; when
      the request itself throws, the handler stops before the list
      changes. */
  function HandleDelete(e: Editor, id: string, answered: bool): (r: Editor)
    ensures !answered ==> r == e
    ensures answered ==> forall s :: s in r.sessions <==> s in e.sessions && s.id != id
    ensures r == e.(sessions := r.sessions)
  {
    if answered then e.(sessions := WithoutKey(e.sessions, SessionId, id)) else e
  }

  /** `openCreate`: a blank form for `today` with every known player
      selected and no exercise. */
  function OpenCreate(e: Editor, today: string): (r: Editor)
    ensures !r.isEditing && r.editingId == None && r.showCreateModal
    ensures r.form.date == today && r.form.startTime == "09:00" && r.form.endTime == "11:00"
    ensures r.form.focus == "" && r.form.intensity == "Medium"
    ensures |r.form.selectedPlayerIds| == |e.allPlayers|
    ensures forall i :: 0 <= i < |e.allPlayers| ==> r.form.selectedPlayerIds[i] == e.allPlayers[i].id
    ensures r.form.selectedExerciseIds == []
    ensures r.sessions == e.sessions && r.allPlayers == e.allPlayers && r.allExercises == e.allExercises
  {
    e.(isEditing := false, editingId := None, showCreateModal := true,
       form := FormData(today, "09:00", "11:00", "", "Medium", Keys(e.allPlayers, PlayerId), []))
  }

  /** Right after `openCreate` nobody is in the absent panel and every
      exercise is in the panel still to pick. */
  lemma OpenCreatePanels(e: Editor, today: string)
    ensures var f := OpenCreate(e, today).form;
      AbsentPlayers(e.allPlayers, f.selectedPlayerIds) == []
      && AvailableExercises(e.allExercises, f.selectedExerciseIds) == e.allExercises
  {
    var f := OpenCreate(e, today).form;
    forall p | p in e.allPlayers ensures p.id in f.selectedPlayerIds {
      var i :| 0 <= i < |e.allPlayers| && e.allPlayers[i] == p;
      assert f.selectedPlayerIds[i] == p.id;
    }
    NoneLeft(e.allPlayers, f.selectedPlayerIds);
    NothingExcluded(e.allExercises);
  }

  lemma {:induction false} NoneLeft(all: seq<Player>, selected: seq<string>)
    requires forall p :: p in all ==> p.id in selected
    ensures AbsentPlayers(all, selected) == []
  {
    if all != [] {
      assert all[0] in all;
      NoneLeft(all[1..], selected);
    }
  }

  lemma {:induction false} NothingExcluded(xs: seq<Exercise>)
    ensures WithoutKeysIn(xs, ExerciseId, []) == xs
  {
    if xs != [] {
      NothingExcluded(xs[1..]);
    }
  }

  /** The effect that preselects the players: while the create dialog is
      open and not editing, a non-empty player list is selected in full. */
  function PreselectPlayers(e: Editor): (r: Editor)
    ensures e.showCreateModal && !e.isEditing && |e.allPlayers| > 0 ==>
      r.form.selectedPlayerIds == Keys(e.allPlayers, PlayerId)
    ensures !(e.showCreateModal && !e.isEditing && |e.allPlayers| > 0) ==> r == e
    ensures r == e.(form := e.form.(selectedPlayerIds := r.form.selectedPlayerIds))
  {
    if e.showCreateModal && !e.isEditing && |e.allPlayers| > 0 then
      e.(form := e.form.(selectedPlayerIds := Keys(e.allPlayers, PlayerId)))
    else e
  }

  /** `openEdit`: the session's fields and lists fill the form and its id
      is remembered. */
  function OpenEdit(e: Editor, s: TrainingSession): (r: Editor)
    ensures r.isEditing && r.editingId == Some(s.id) && r.showCreateModal
    ensures r.form == FormData(s.date, s.startTime, s.endTime, s.focus, s.intensity,
                               s.selectedPlayers, s.selectedExercises)
    ensures r.sessions == e.sessions && r.allPlayers == e.allPlayers && r.allExercises == e.allExercises
  {
    e.(isEditing := true, editingId := Some(s.id), showCreateModal := true,
       form := FormData(s.date, s.startTime, s.endTime, s.focus, s.intensity,
                        s.selectedPlayers, s.selectedExercises))
  }

  /** `togglePlayer`: flips whether `id` is selected; the exercise list and
      every other field stay. */
  function TogglePlayer(f: FormData, id: string): (r: FormData)
    ensures id in r.selectedPlayerIds <==> id !in f.selectedPlayerIds
    ensures forall x :: x != id ==> (x in r.selectedPlayerIds <==> x in f.selectedPlayerIds)
    ensures r.(selectedPlayerIds := f.selectedPlayerIds) == f
  {
    f.(selectedPlayerIds := Toggled(f.selectedPlayerIds, id))
  }

  /** `toggleExercise`: the same for the exercise list. */
  function ToggleExercise(f: FormData, id: string): (r: FormData)
    ensures id in r.selectedExerciseIds <==> id !in f.selectedExerciseIds
    ensures forall x :: x != id ==> (x in r.selectedExerciseIds <==> x in f.selectedExerciseIds)
    ensures r.(selectedExerciseIds := f.selectedExerciseIds) == f
  {
    f.(selectedExerciseIds := Toggled(f.selectedExerciseIds, id))
  }

  /** Toggling an unselected player twice gives back the very same form;
      for a selected one only the membership comes back, since the player
      returns at the end of the list (`Lists.ToggledTwicePresentReorders`). */
  lemma TogglePlayerTwice(f: FormData, id: string)
    ensures id !in f.selectedPlayerIds ==> TogglePlayer(TogglePlayer(f, id), id) == f
    ensures forall x :: x in TogglePlayer(TogglePlayer(f, id), id).selectedPlayerIds <==> x in f.selectedPlayerIds
  {
    if id !in f.selectedPlayerIds {
      ToggledTwiceAbsent(f.selectedPlayerIds, id);
    }
  }

  lemma ToggleExerciseTwice(f: FormData, id: string)
    ensures id !in f.selectedExerciseIds ==> ToggleExercise(ToggleExercise(f, id), id) == f
    ensures forall x :: x in ToggleExercise(ToggleExercise(f, id), id).selectedExerciseIds <==> x in f.selectedExerciseIds
  {
    if id !in f.selectedExerciseIds {
      ToggledTwiceAbsent(f.selectedExerciseIds, id);
    }
  }

  /** The absent panel: every known player whose id is not selected. */
  function AbsentPlayers(all: seq<Player>, selected: seq<string>): (r: seq<Player>)
    ensures forall p :: p in r <==> p in all && p.id !in selected
  {
    WithoutKeysIn(all, PlayerId, selected)
  }

  /** The exercise panel: every known exercise whose id is not selected. */
  function AvailableExercises(all: seq<Exercise>, selected: seq<string>): (r: seq<Exercise>)
    ensures forall x :: x in r <==> x in all && x.id !in selected
  {
    WithoutKeysIn(all, ExerciseId, selected)
  }

  /** Selected and absent split the known players: each one is in exactly
      one of the two. */
  lemma PlayersPartition(all: seq<Player>, selected: seq<string>, p: Player)
    requires p in all
    ensures (p.id in selected) != (p in AbsentPlayers(all, selected))
  {
  }

  /** The two exercise panels never show the same id. */
  lemma ExercisePanelsDisjoint(all: seq<Exercise>, selected: seq<string>)
    ensures forall x :: x in AvailableExercises(all, selected) ==> x.id !in selected
  {
  }

  /** Picking an exercise from the panel moves it out of the panel, and
      the panel keeps everything else. */
  lemma PickExercise(e: Editor, x: Exercise)
    requires x in AvailableExercises(e.allExercises, e.form.selectedExerciseIds)
    ensures var f := ToggleExercise(e.form, x.id);
      && x !in AvailableExercises(e.allExercises, f.selectedExerciseIds)
      && forall y :: y in e.allExercises && y.id != x.id ==>
           (y in AvailableExercises(e.allExercises, f.selectedExerciseIds) <==>
            y in AvailableExercises(e.allExercises, e.form.selectedExerciseIds))
  {
  }
}
