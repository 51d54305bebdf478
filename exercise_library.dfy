/** The exercise library: exercises with a name, an intensity, coaching
    text, a goalkeeper count and four tag lists (equipment and the linked
    basics, principles and tactics). The built-in mock exercises, whose ids
    start with "ex", live only in the page; every other exercise is stored
    by the backend, which keeps each tag list as comma-joined text. The
    form toggles tags; saving issues a create or an update depending on
    the id; deleting a mock needs no request. Network outcomes are
    parameters. */
module ExerciseLibrary {
  import opened Lists
  import opened Text
  import opened CommaList
  import opened Outcomes

  datatype Exercise = Exercise(
    id: string,
    name: string,
    intensity: string,
    description: string,
    setup: string,
    variations: string,
    coachingPoints: string,
    goalkeepers: int,
    equipment: seq<string>,
    linkedBasics: seq<string>,
    linkedPrinciples: seq<string>,
    linkedTactics: seq<string>,
    mediaUrl: Option<string>,
    isCustom: bool)

  /** The four tag lists of the form. */
  datatype ListField = Equipment | LinkedBasics | LinkedPrinciples | LinkedTactics

  /** An exercise as the backend returns it (`coaching_points`,
      `linked_basics`, ...): the tag lists are comma-joined text, and a
      missing text column reads as "" and a missing count as 0. */
  datatype Record = Record(
    id: string,
    name: string,
    description: string,
    intensity: string,
    setup: string,
    variations: string,
    coachingPoints: string,
    goalkeepers: int,
    equipment: string,
    linkedBasics: string,
    linkedPrinciples: string,
    linkedTactics: string,
    mediaUrl: Option<string>)

  /** The body of a save request. */
  datatype Payload = Payload(
    name: string,
    description: string,
    intensity: string,
    setup: string,
    variations: string,
    coachingPoints: string,
    goalkeepers: int,
    equipment: string,
    linkedBasics: string,
    linkedPrinciples: string,
    linkedTactics: string,
    mediaUrl: Option<string>)

  /** `PUT /exercises/{id}` or `POST /exercises`. */
  datatype Request = Put(id: string, body: Payload) | Post(body: Payload)

  /** A save's outcome: the request threw or answered with an error status,
      or the backend answered with the stored record's id and media URL. */
  datatype SaveResponse = SaveFailed | SaveOk(savedId: string, savedMediaUrl: Option<string>)

  /** The component state the handlers read and replace. */
  datatype Library = Library(
    exercises: seq<Exercise>,
    selectedExercise: Option<Exercise>,
    showCreateModal: bool,
    isEditing: bool,
    mediaPreview: Option<string>,
    form: Exercise)

  function ExerciseId(x: Exercise): string { x.id }

  /** The page's built-in exercise. */
  const MockExercises: seq<Exercise> := [
    Exercise("ex1", "Rondo 4v2", "Medium",
             "Possession drill where 4 attackers maintain possession against 2 defenders in a confined space.",
             "Create a 10x10 yard square with cones.", "5v2, One touch limit.",
             "Quick movement, body shape, first touch.", 0,
             ["Balls", "Cones", "Bibs/Vests"], ["Passing Accuracy"], [], [], None, false)
  ]

  /** The empty form `resetForm` sets up. */
  const EmptyForm: Exercise :=
    Exercise("", "", "Medium", "", "", "", "", 0, [], [], [], [], Some(""), true)

  /** An id the page treats as one of its mocks. */
  predicate IsMockId(id: string) {
    StartsWith(id, "ex")
  }

  function Field(x: Exercise, field: ListField): seq<string> {
    match field
    case Equipment => x.equipment
    case LinkedBasics => x.linkedBasics
    case LinkedPrinciples => x.linkedPrinciples
    case LinkedTactics => x.linkedTactics
  }

  /** `{ ...x, [field]: list }`. */
  function WithField(x: Exercise, field: ListField, list: seq<string>): (r: Exercise)
    ensures Field(r, field) == list
    ensures forall g :: g != field ==> Field(r, g) == Field(x, g)
  {
    match field
    case Equipment => x.(equipment := list)
    case LinkedBasics => x.(linkedBasics := list)
    case LinkedPrinciples => x.(linkedPrinciples := list)
    case LinkedTactics => x.(linkedTactics := list)
  }

  /** `toggleSelection(field, item)`: flips whether `item` is in that one
      list; the other three lists and every other field stay. */
  function ToggleSelection(form: Exercise, field: ListField, item: string): (r: Exercise)
    ensures item in Field(r, field) <==> item !in Field(form, field)
    ensures forall y :: y != item ==> (y in Field(r, field) <==> y in Field(form, field))
    ensures forall g :: g != field ==> Field(r, g) == Field(form, g)
    ensures WithField(r, field, Field(form, field)) == form
  {
    WithField(form, field, Toggled(Field(form, field), item))
  }

  /** Toggling a tag that was not there, twice, gives back the same form. */
  lemma ToggleSelectionTwice(form: Exercise, field: ListField, item: string)
    requires item !in Field(form, field)
    ensures ToggleSelection(ToggleSelection(form, field, item), field, item) == form
  {
    ToggledTwiceAbsent(Field(form, field), item);
  }

  /** The load mapping of one record: every tag list is split at its
      commas, an empty column giving no tags; the exercise counts as
      custom. */
  function LoadExercise(w: Record): (x: Exercise)
    ensures x.id == w.id && x.isCustom && x.mediaUrl == w.mediaUrl
    ensures forall g :: CommaFree(Field(x, g))
  {
    Exercise(w.id, w.name, w.intensity, w.description, w.setup, w.variations,
             w.coachingPoints, w.goalkeepers,
             Decode(w.equipment), Decode(w.linkedBasics),
             Decode(w.linkedPrinciples), Decode(w.linkedTactics),
             w.mediaUrl, true)
  }

  function LoadAll(ws: seq<Record>): (xs: seq<Exercise>)
    ensures |xs| == |ws|
    ensures forall i :: 0 <= i < |ws| ==> xs[i] == LoadExercise(ws[i])
  {
    if ws == [] then [] else [LoadExercise(ws[0])] + LoadAll(ws[1..])
  }

  /** The initial load: the mocks followed by the backend's exercises, or
      the mocks alone when the request or its decoding failed (`None`). */
  function LoadExercises(data: Option<seq<Record>>): (xs: seq<Exercise>)
    ensures |MockExercises| <= |xs| && xs[..|MockExercises|] == MockExercises
    ensures data.None? ==> xs == MockExercises
    ensures data.Some? ==> |xs| == |MockExercises| + |data.value|
    ensures data.Some? ==> xs[|MockExercises|..] == LoadAll(data.value)
  {
    match data
    case None => MockExercises
    case Some(ws) => MockExercises + LoadAll(ws)
  }

  /** The save payload: the tag lists joined by commas; the media URL is
      the uploaded preview when there is a non-empty one, and the form's
      URL otherwise. */
  function BuildPayload(form: Exercise, mediaPreview: Option<string>): (p: Payload)
    ensures p.name == form.name && p.description == form.description
    ensures p.equipment == Encode(form.equipment) && p.linkedBasics == Encode(form.linkedBasics)
    ensures p.linkedPrinciples == Encode(form.linkedPrinciples) && p.linkedTactics == Encode(form.linkedTactics)
    ensures mediaPreview.Some? && mediaPreview.value != "" ==> p.mediaUrl == mediaPreview
    ensures !(mediaPreview.Some? && mediaPreview.value != "") ==> p.mediaUrl == form.mediaUrl
  {
    var media := if mediaPreview.Some? && mediaPreview.value != "" then mediaPreview else form.mediaUrl;
    Payload(form.name, form.description, form.intensity, form.setup, form.variations,
            form.coachingPoints, form.goalkeepers,
            Encode(form.equipment), Encode(form.linkedBasics),
            Encode(form.linkedPrinciples), Encode(form.linkedTactics), media)
  }

  /** A backend that stores the payload's columns as they were sent. */
  function Stored(id: string, p: Payload): Record {
    Record(id, p.name, p.description, p.intensity, p.setup, p.variations, p.coachingPoints,
           p.goalkeepers, p.equipment, p.linkedBasics, p.linkedPrinciples, p.linkedTactics,
           p.mediaUrl)
  }

  /** Tags that survive the comma codec: non-empty and free of commas. */
  predicate WellFormedTags(tags: seq<string>) {
    CommaFree(tags) && forall i :: 0 <= i < |tags| ==> tags[i] != ""
  }

  /** Round trip through the backend: loading what a save stored gives
      back the form's four tag lists and its text fields. */
  lemma LoadInvertsSave(form: Exercise, mediaPreview: Option<string>, id: string)
    requires forall g :: WellFormedTags(Field(form, g))
    ensures var x := LoadExercise(Stored(id, BuildPayload(form, mediaPreview)));
      && (forall g :: Field(x, g) == Field(form, g))
      && x.name == form.name && x.description == form.description
      && x.intensity == form.intensity && x.setup == form.setup
      && x.variations == form.variations && x.coachingPoints == form.coachingPoints
      && x.goalkeepers == form.goalkeepers
  {
    assert WellFormedTags(Field(form, Equipment));
    assert WellFormedTags(Field(form, LinkedBasics));
    assert WellFormedTags(Field(form, LinkedPrinciples));
    assert WellFormedTags(Field(form, LinkedTactics));
    DecodeEncodeIds(form.equipment);
    DecodeEncodeIds(form.linkedBasics);
    DecodeEncodeIds(form.linkedPrinciples);
    DecodeEncodeIds(form.linkedTactics);
    var x := LoadExercise(Stored(id, BuildPayload(form, mediaPreview)));
    forall g ensures Field(x, g) == Field(form, g) {
      match g
      case Equipment =>
      case LinkedBasics =>
      case LinkedPrinciples =>
      case LinkedTactics =>
    }
  }

  /** `handleSave` up to the request. An empty name or description is
      refused before any request. An update goes out only when editing an
      exercise whose id is non-empty and not a mock id; everything else is
      a create. */
  function PlanSave(lib: Library): (r: Result<Request>)
    ensures r.Rejected? <==> lib.form.name == "" || lib.form.description == ""
    ensures r.Ok? ==> r.value.body == BuildPayload(lib.form, lib.mediaPreview)
    ensures r.Ok? ==>
      (r.value.Put? <==> lib.isEditing && lib.form.id != "" && !IsMockId(lib.form.id))
    ensures r.Ok? && r.value.Put? ==> r.value.id == lib.form.id
  {
    if lib.form.name == "" || lib.form.description == "" then
      Rejected("Name and Description are required")
    else if lib.isEditing && lib.form.id != "" && !IsMockId(lib.form.id) then
      Ok(Put(lib.form.id, BuildPayload(lib.form, lib.mediaPreview)))
    else
      Ok(Post(BuildPayload(lib.form, lib.mediaPreview)))
  }

  /** The exercise the page keeps after a successful save: the form under
      the returned id and media URL, marked custom. */
  function SavedExercise(form: Exercise, savedId: string, savedMediaUrl: Option<string>): (x: Exercise)
    ensures x.id == savedId && x.mediaUrl == savedMediaUrl && x.isCustom
    ensures x.(id := form.id, mediaUrl := form.mediaUrl, isCustom := form.isCustom) == form
  {
    form.(id := savedId, isCustom := true, mediaUrl := savedMediaUrl)
  }

  /** `closeModal`: the dialog closes, edit mode ends, nothing is selected
      and the form is emptied. */
  function CloseModal(lib: Library): (r: Library)
    ensures !r.showCreateModal && !r.isEditing && r.selectedExercise == None
    ensures r.form == EmptyForm && r.mediaPreview == None
    ensures r.exercises == lib.exercises
  {
    lib.(showCreateModal := false, isEditing := false, selectedExercise := None,
         form := EmptyForm, mediaPreview := None)
  }

  /** `handleSave` after the response, as written: on success an edit
      replaces every exercise whose id equals the RETURNED id, a create
      appends, and the dialog closes; on failure nothing changes. */
  function ApplySaved(lib: Library, resp: SaveResponse): (r: Library)
    ensures resp.SaveFailed? ==> r == lib
    ensures resp.SaveOk? && lib.isEditing ==>
      var x := SavedExercise(lib.form, resp.savedId, resp.savedMediaUrl);
      && |r.exercises| == |lib.exercises|
      && forall i :: 0 <= i < |lib.exercises| ==>
           r.exercises[i] == if lib.exercises[i].id == resp.savedId then x else lib.exercises[i]
    ensures resp.SaveOk? && !lib.isEditing ==>
      r.exercises == lib.exercises + [SavedExercise(lib.form, resp.savedId, resp.savedMediaUrl)]
    ensures resp.SaveOk? ==> r == CloseModal(lib).(exercises := r.exercises)
  {
    match resp
    case SaveFailed => lib
    case SaveOk(savedId, media) =>
      var x := SavedExercise(lib.form, savedId, media);
      var exercises := if lib.isEditing then ReplaceKey(lib.exercises, ExerciseId, savedId, x)
                       else lib.exercises + [x];
      CloseModal(lib).(exercises := exercises)
  }

  /** The save handler, given an edit-mode state holding a mock exercise,
      loses the edit. The mock's id starts with "ex", so the save is a
      create; the backend answers with a fresh id, which no exercise in the
      page has, so the list comes back unchanged and the edited exercise is
      not in it. The page itself never reaches this state: the Edit button
      is shown only for custom exercises, the mock is not custom, and the
      backend's ids are random UUIDs, which never start with "ex". */
  lemma MockEditIsLost()
    ensures var lib := Library(MockExercises, None, true, true, None,
                               MockExercises[0].(name := "Rondo 5v2"));
      && PlanSave(lib).Ok? && PlanSave(lib).value.Post?
      && ApplySaved(lib, SaveOk("uuid-1", None)).exercises == MockExercises
      && SavedExercise(lib.form, "uuid-1", None) !in ApplySaved(lib, SaveOk("uuid-1", None)).exercises
  {
    var lib := Library(MockExercises, None, true, true, None, MockExercises[0].(name := "Rondo 5v2"));
    assert IsMockId(lib.form.id) by {
      assert lib.form.id == "ex1";
      assert "ex1"[..2] == "ex";
    }
    var r := ApplySaved(lib, SaveOk("uuid-1", None));
    assert MockExercises[0].id == "ex1";
    assert r.exercises[0] == MockExercises[0];
    assert r.exercises == MockExercises;
  }

  /** `handleSave` after the response, corrected: an edit replaces the
      exercise that was OPENED (the form's own id) by the saved one, so an
      edited mock is replaced by its stored copy; creates and failures are
      as before. */
  function ApplySavedFixed(lib: Library, resp: SaveResponse): (r: Library)
    ensures resp.SaveFailed? ==> r == lib
    ensures resp.SaveOk? && lib.isEditing ==>
      var x := SavedExercise(lib.form, resp.savedId, resp.savedMediaUrl);
      && |r.exercises| == |lib.exercises|
      && forall i :: 0 <= i < |lib.exercises| ==>
           r.exercises[i] == if lib.exercises[i].id == lib.form.id then x else lib.exercises[i]
    ensures resp.SaveOk? && !lib.isEditing ==>
      r.exercises == lib.exercises + [SavedExercise(lib.form, resp.savedId, resp.savedMediaUrl)]
    ensures resp.SaveOk? ==> r == CloseModal(lib).(exercises := r.exercises)
  {
    match resp
    case SaveFailed => lib
    case SaveOk(savedId, media) =>
      var x := SavedExercise(lib.form, savedId, media);
      var exercises := if lib.isEditing then ReplaceKey(lib.exercises, ExerciseId, lib.form.id, x)
                       else lib.exercises + [x];
      CloseModal(lib).(exercises := exercises)
  }

  /** With the correction a successful edit of a listed exercise always
      shows the saved version, and the old version is gone unless the
      backend kept its id. */
  lemma EditIsKept(lib: Library, savedId: string, media: Option<string>)
    requires lib.isEditing
    requires HasKey(lib.exercises, ExerciseId, lib.form.id)
    ensures var r := ApplySavedFixed(lib, SaveOk(savedId, media));
      && SavedExercise(lib.form, savedId, media) in r.exercises
      && (savedId != lib.form.id ==> !HasKey(r.exercises, ExerciseId, lib.form.id))
  {
    var r := ApplySavedFixed(lib, SaveOk(savedId, media));
    var i :| 0 <= i < |lib.exercises| && lib.exercises[i].id == lib.form.id;
    assert r.exercises[i] == SavedExercise(lib.form, savedId, media);
  }

  /** For an update, where the backend answers with the id it was sent,
      the correction changes nothing. */
  lemma FixedAgreesOnUpdate(lib: Library, media: Option<string>)
    ensures ApplySavedFixed(lib, SaveOk(lib.form.id, media)) == ApplySaved(lib, SaveOk(lib.form.id, media))
  {
  }

  /** `handleDeleteExercise`. A mock goes at once; any other exercise goes
      only when the backend answered the DELETE with a success status
      (`serverOk`), and otherwise nothing changes. On removal exactly the
      exercises with that id leave the list and the selection is cleared. */
  function DeleteExercise(lib: Library, id: string, serverOk: bool): (r: Library)
    ensures IsMockId(id) || serverOk ==>
      && (forall x :: x in r.exercises <==> x in lib.exercises && x.id != id)
      && r == lib.(exercises := r.exercises, selectedExercise := None)
    ensures !IsMockId(id) && !serverOk ==> r == lib
    ensures IsMockId(id) || serverOk ==> r.exercises == WithoutKey(lib.exercises, ExerciseId, id)
  {
    if IsMockId(id) || serverOk then
      lib.(exercises := WithoutKey(lib.exercises, ExerciseId, id), selectedExercise := None)
    else lib
  }

  /** Deleting a mock needs no request: its outcome is the same whatever the
      server would answer. Any other id stays when the server refuses. */
  lemma MockDeleteNeedsNoRequest(lib: Library, id: string)
    ensures IsMockId(id) ==> DeleteExercise(lib, id, true) == DeleteExercise(lib, id, false)
    ensures !IsMockId(id) ==> DeleteExercise(lib, id, false) == lib
  {
  }

  /** `openEditModal`: the form takes the exercise, the preview its media
      URL when it has a non-empty one, and edit mode begins. */
  function OpenEditModal(lib: Library, x: Exercise): (r: Library)
    ensures r.form == x && r.isEditing && r.showCreateModal
    ensures r.mediaPreview == if x.mediaUrl.Some? && x.mediaUrl.value != "" then x.mediaUrl else None
    ensures r.exercises == lib.exercises && r.selectedExercise == lib.selectedExercise
  {
    lib.(form := x, isEditing := true, showCreateModal := true,
         mediaPreview := if x.mediaUrl.Some? && x.mediaUrl.value != "" then x.mediaUrl else None)
  }

  /** `filteredExercises`: the exercises, in order, whose lower-cased name
      contains the lower-cased query. */
  function FilteredExercises(xs: seq<Exercise>, query: string): (r: seq<Exercise>)
    ensures forall x :: x in r <==> x in xs && Contains(ToLower(x.name), ToLower(query))
    ensures |r| <= |xs|
  {
    if xs == [] then []
    else
      var head := if Contains(ToLower(xs[0].name), ToLower(query)) then [xs[0]] else [];
      head + FilteredExercises(xs[1..], query)
  }

  /** An empty search keeps every exercise, in order. */
  lemma {:induction false} EmptyQueryKeepsAll(xs: seq<Exercise>)
    ensures FilteredExercises(xs, "") == xs
  {
    if xs != [] {
      ContainsEmpty(ToLower(xs[0].name));
      EmptyQueryKeepsAll(xs[1..]);
    }
  }

  /** The search ignores the case of ASCII letters in the query. */
  lemma {:induction false} SearchIgnoresCase(xs: seq<Exercise>, q1: string, q2: string)
    requires ToLower(q1) == ToLower(q2)
    ensures FilteredExercises(xs, q1) == FilteredExercises(xs, q2)
  {
    if xs != [] {
      SearchIgnoresCase(xs[1..], q1, q2);
    }
  }
}
