# Coaching dashboard core, modelled in Dafny

This project models the logic inside a football coaching dashboard's React
components. A coach:

- composes **training plans** from selected basics, principles and tactics;
- lays plans out on a **session timeline** with a duration per entry;
- builds a **training** from a form, with available and absent players and an
  ordered exercise list;
- sets a **match lineup** by dropping players onto the 11 fixed formation
  slots and onto a substitutes bench;
- edits **training sessions** and **exercises** stored by a REST backend,
  which keeps id and tag lists as comma-joined text.

Each event handler becomes one of two things:

- a function from the old component state, and the event's inputs, to the new
  state;
- a method on a class whose fields are the state the handler replaces. This
  is used where the component copies a collection and changes it in place:
  the timeline's `updateDuration`, the expanded `Set`, the lineup `Map` and
  the exercise splice.

Clock values, fresh ids, dates and the outcome of every network request are
parameters.

| module | file | models |
|---|---|---|
| `Outcomes` | outcomes.dfy | `Option` and `Result` (`Rejected` carries the message a toast would show) |
| `Lists` | lists.dfy | the array idioms: filter by index or key, toggle membership, map-replace by key |
| `Text` | text.dfy | `trim()`'s whitespace set, `toLowerCase()` on ASCII letters, `includes`, `startsWith` |
| `CommaList` | comma_list.dfy | `join(',')` and `s ? s.split(',') : []` |
| `SessionPlanner` | session_planner.dfy | components/SessionPlanner.tsx; class `Planner` |
| `TrainingBuilder` | training_builder.dfy | components/TrainingManager.tsx |
| `MatchLineup` | match_lineup.dfy | src/components/MatchLineup.tsx; class `Board` |
| `TrainingPlans` | training_plans.dfy | src/components/TrainingPlans.tsx |
| `SessionForm` | session_form.dfy | src/components/TrainingManager.tsx |
| `ExerciseLibrary` | exercise_library.dfy | src/components/ExercisesLibrary.tsx |

Where the code does less than a stricter design would, the model follows the
code:

- dropping a player onto a slot does not vacate the slot they came from;
- a duration is whatever `parseInt(...) || 0` gives, so 0 and negative values
  are accepted;
- the timeline has no reorder operation;
- the save-session button is disabled on an empty timeline, but the handler
  itself does not check this, so the model does not either.

## Model

| member | source | states |
|---|---|---|
| `Lists.RemoveIndex` | components/SessionPlanner.tsx:254 | filtering out index `i` gives the two slices around `i`; an index outside the list leaves it as it was |
| `Lists.Toggled` | src/components/TrainingManager.tsx:185-195 | the toggled value's membership flips, and every other value's membership stays |
| `Lists.ToggledTwiceAbsent` | src/components/TrainingManager.tsx:185-195 | toggling a value that was absent twice gives back the same list |
| `Lists.ToggledTwiceMembers` | src/components/TrainingManager.tsx:185-195 | toggling twice always restores which values are members |
| `Lists.ToggledTwicePresentReorders` | src/components/TrainingManager.tsx:185-195 | toggling a present value twice can reorder the list: `["a","b"]` becomes `["b","a"]` |
| `Lists.ToggledNoDup` | src/components/TrainingManager.tsx:185-195 | toggling keeps a duplicate-free list duplicate-free |
| `Lists.WithoutKey` | src/components/TrainingPlans.tsx:174 | filtering by key keeps exactly the elements with another key, and changes nothing when the key is absent |
| `Lists.ReplaceKey` | src/components/TrainingPlans.tsx:210 | map-replace by key keeps the length, and replaces exactly the positions whose key matches |
| `Text.TrimStart` | components/SessionPlanner.tsx:277 | the result is a suffix of the input; everything dropped is whitespace, and the result does not start with whitespace |
| `Text.TrimEnd` | components/SessionPlanner.tsx:277 | the result is a prefix of the input; everything dropped is whitespace, and the result does not end with whitespace |
| `Text.TrimEmptyIffBlank` | components/SessionPlanner.tsx:277 | `s.trim()` is empty exactly when every character of `s` is whitespace |
| `Text.LowerChar` | components/SessionPlanner.tsx:393 | maps `A`-`Z` 32 code points down onto `a`-`z`, and leaves every other character alone |
| `Text.ToLower` | components/SessionPlanner.tsx:393 | lowers each character position-wise and keeps the length |
| `CommaList.Split` | src/components/TrainingManager.tsx:62 | `split(',')` returns at least one piece, and no piece contains a comma |
| `CommaList.Decode` | src/components/TrainingManager.tsx:62-63 | decoding gives comma-free pieces, and gives no pieces exactly for the empty string |
| `CommaList.SplitJoin` | src/components/TrainingManager.tsx:99-100 | splitting a join of a non-empty comma-free list gives the list back |
| `CommaList.JoinSplit` | src/components/TrainingManager.tsx:62-63 | joining the pieces of a split gives the string back |
| `CommaList.JoinEmpty` | src/components/TrainingManager.tsx:99-100 | a join is empty exactly for `[]` and `[""]` |
| `CommaList.DecodeEncode` | src/components/TrainingManager.tsx:62-100 | for comma-free lists, decode after encode is the identity exactly when the list is not `[""]` |
| `CommaList.DecodeEncodeIds` | src/components/ExercisesLibrary.tsx:85-134 | lists of non-empty, comma-free ids survive encode then decode |
| `CommaList.EncodeDecode` | src/components/TrainingManager.tsx:62-100 | encode after decode gives back any stored string |
| `CommaList.CommaInIdSplits` | src/components/TrainingManager.tsx:62-100 | an id containing a comma comes back as two ids |
| `SessionPlanner.EntryId` | components/SessionPlanner.tsx:240-241 | an entry id starts with the plan's id |
| `SessionPlanner.NewEntry` | components/SessionPlanner.tsx:239-245 | a new entry holds the dropped plan with the 30-minute default |
| `SessionPlanner.WithDuration` | components/SessionPlanner.tsx:258-261 | only entry `i`'s duration changes; its id and plan, and every other entry, stay |
| `SessionPlanner.Flip` | components/SessionPlanner.tsx:264-271 | index `i`'s membership flips, and every other index's stays |
| `SessionPlanner.Clicked` | components/SessionPlanner.tsx:400 | a click clears the selection exactly when it is the selected plan, and otherwise selects the clicked plan |
| `SessionPlanner.VisiblePlans` | components/SessionPlanner.tsx:391-395 | keeps exactly the plans whose lower-cased name or description contains the lower-cased query |
| `SessionPlanner.EmptySearchShowsAll` | components/SessionPlanner.tsx:391-395 | an empty search keeps every plan, in order |
| `SessionPlanner.TotalConcat` | components/SessionPlanner.tsx:274 | the total of a concatenation is the sum of the two totals |
| `SessionPlanner.TotalAppend` | components/SessionPlanner.tsx:274 | appending an entry adds its duration to the total |
| `SessionPlanner.TotalSplit` | components/SessionPlanner.tsx:274 | the total is the prefix total, plus entry `i`, plus the suffix total |
| `SessionPlanner.TotalRemoveIndex` | components/SessionPlanner.tsx:253-254 | removing index `i` subtracts entry `i`'s duration, and an out-of-range index changes nothing |
| `SessionPlanner.TotalUpdate` | components/SessionPlanner.tsx:258-261 | setting entry `i`'s duration to `d` changes the total by `d` minus the old duration |
| `SessionPlanner.FlipTwice` | components/SessionPlanner.tsx:264-271 | expanding the same index twice restores the expanded set |
| `SessionPlanner.PlaceTwiceNoDedup` | components/SessionPlanner.tsx:576-581 | placing the same plan twice, at two clock values, gives two distinct 30-minute entries |
| `SessionPlanner.Planner.constructor` | components/SessionPlanner.tsx:209-224 | starts with the stored plans, an empty timeline, no expanded entries, no saved sessions and no selection |
| `SessionPlanner.Planner.Drop` | components/SessionPlanner.tsx:239-245 | appends exactly one new entry and leaves every earlier one; the total rises by 30 |
| `SessionPlanner.Planner.AddSelectedToSession` | components/SessionPlanner.tsx:575-582 | appends the selected plan as a new 30-minute entry, and closes the details view |
| `SessionPlanner.Planner.RemoveFromTimeline` | components/SessionPlanner.tsx:253-254 | removes only position `i` and keeps the order of the rest; the total drops by that entry's duration |
| `SessionPlanner.Planner.UpdateDuration` | components/SessionPlanner.tsx:258-261 | copies the timeline, sets one duration, and replaces the timeline; the total changes by the difference |
| `SessionPlanner.Planner.ToggleExpand` | components/SessionPlanner.tsx:264-271 | the expanded set becomes the flip of the old one, and only that field changes |
| `SessionPlanner.Planner.ClickPlan` | components/SessionPlanner.tsx:400 | selecting a plan card toggles the details view for that plan |
| `SessionPlanner.Planner.CloseDetails` | components/SessionPlanner.tsx:496-501 | closing the details clears the selection |
| `SessionPlanner.Planner.SetSessionName` | components/SessionPlanner.tsx:615 | the name field takes the typed text |
| `SessionPlanner.Planner.SaveSession` | components/SessionPlanner.tsx:276-295 | a name that is blank after trimming saves nothing; otherwise the session is prepended with the timeline's total at save time, and the name is cleared |
| `SessionPlanner.Planner.LoadSession` | components/SessionPlanner.tsx:299-300 | the timeline becomes exactly the session's items |
| `SessionPlanner.Planner.DeleteSession` | components/SessionPlanner.tsx:305-307 | removes exactly the saved sessions with that id, keeping the others in order |
| `TrainingBuilder.DefaultForm` | components/TrainingManager.tsx:184-194 | a reset form is dated today, runs 09:00 to 11:00 at medium intensity, and has no focus, players or exercises |
| `TrainingBuilder.TogglePlayer` | components/TrainingManager.tsx:212-232 | membership in the chosen list flips; a removal leaves the other list alone; an addition also takes the player out of the other list; nothing else changes |
| `TrainingBuilder.TogglePlayerKeepsDisjoint` | components/TrainingManager.tsx:212-232 | if the two player lists are disjoint, they stay disjoint after a toggle |
| `TrainingBuilder.TogglePlayerNoDup` | components/TrainingManager.tsx:212-232 | duplicate-free player lists stay duplicate-free |
| `TrainingBuilder.AddExercise` | components/TrainingManager.tsx:234-238 | appends the id only when it is absent, so the id is present afterwards |
| `TrainingBuilder.AddExerciseIdempotent` | components/TrainingManager.tsx:234-238 | adding the same exercise twice is the same as adding it once |
| `TrainingBuilder.AddExerciseNoDup` | components/TrainingManager.tsx:234-238 | the exercise list stays duplicate-free |
| `TrainingBuilder.RemoveExercise` | components/TrainingManager.tsx:241-243 | deletes only position `i`, the rest keep their order, and an out-of-range `i` changes nothing |
| `TrainingBuilder.RemoveExerciseNoDup` | components/TrainingManager.tsx:241-243 | removal keeps the list duplicate-free |
| `TrainingBuilder.Spliced` | components/TrainingManager.tsx:248 | `splice(from, 1)` shifts every later element one place left |
| `TrainingBuilder.Moved` | components/TrainingManager.tsx:246-250 | a move keeps the length and puts the moved element at the target index |
| `TrainingBuilder.MovedAt` | components/TrainingManager.tsx:246-250 | states where every element of a moved list comes from |
| `TrainingBuilder.MovedPermutation` | components/TrainingManager.tsx:246-250 | a move is a permutation: the multiset of exercises is unchanged |
| `TrainingBuilder.InsertedMultiset` | components/TrainingManager.tsx:249 | inserting with `splice(i, 0, x)` adds `x` to the multiset |
| `TrainingBuilder.SplicedMultiset` | components/TrainingManager.tsx:248 | removing with `splice(from, 1)` takes exactly that element out of the multiset |
| `TrainingBuilder.MovedSelf` | components/TrainingManager.tsx:246-250 | moving an element onto its own index is the identity |
| `TrainingBuilder.MovedBack` | components/TrainingManager.tsx:246-250 | moving from `to` back to `from` undoes a move |
| `TrainingBuilder.SpliceOut` | components/TrainingManager.tsx:248 | `splice(from, 1)` on the copied array leaves exactly `Spliced` in its first n-1 cells |
| `TrainingBuilder.SpliceIn` | components/TrainingManager.tsx:249 | `splice(to, 0, x)` shifts the cells from `to` one place right and puts `x` at `to` |
| `TrainingBuilder.MoveExercise` | components/TrainingManager.tsx:246-250 | the two in-place splices on a copy produce exactly `Moved`, and the rest of the form stays |
| `TrainingBuilder.Hover` | components/TrainingManager.tsx:49-53 | hovering moves the list only when the dragged index differs from the hovered one, and the dragged index becomes the hovered one |
| `TrainingBuilder.FromForm` | components/TrainingManager.tsx:136-147 | a training takes every field from the form, plus its id and custom flag |
| `TrainingBuilder.CreateTraining` | components/TrainingManager.tsx:130-151 | rejected unless date, start, end and focus are all non-empty; otherwise the training is appended and the form is reset |
| `TrainingBuilder.EditTraining` | components/TrainingManager.tsx:154-176 | rejected when a required field is empty or nothing is selected; otherwise trainings with the selected id are replaced and the selection follows |
| `TrainingBuilder.DeleteTraining` | components/TrainingManager.tsx:178-180 | removes exactly the trainings with that id, keeps the others in order and clears the selection |
| `TrainingBuilder.StartEditing` | components/TrainingManager.tsx:198-210 | the form takes the training's fields, and edit mode starts |
| `TrainingBuilder.EditUnchangedIsIdentity` | components/TrainingManager.tsx:154-210 | editing the selected training and saving it unchanged keeps that training selected; when every listed training with its id is that training, the list is exactly as it was |
| `MatchLineup.FormationSlotIds` | src/components/MatchLineup.tsx:34-46 | the formation's slot ids are the eleven listed ids, in order |
| `MatchLineup.SlotIdsDistinct` | src/components/MatchLineup.tsx:34-46 | there are eleven slot ids, all distinct |
| `MatchLineup.AvailableAmong` | src/components/MatchLineup.tsx:157-160 | keeps exactly the roster players who are neither on the field nor on the bench |
| `MatchLineup.AvailablePlayers` | src/components/MatchLineup.tsx:157-160 | a player is available exactly when they are in the squad and on neither the field nor the bench; there are no more available players than squad players |
| `MatchLineup.Placed` | src/components/MatchLineup.tsx:164 | a dropped player is recorded as a starter in that slot |
| `MatchLineup.DropKeepsExclusive` | src/components/MatchLineup.tsx:162-165 | dropping an available player keeps everyone in at most one place |
| `MatchLineup.DisplacedReappears` | src/components/MatchLineup.tsx:157-165 | overwriting an occupied slot makes the displaced player available again, and the dropped one not |
| `MatchLineup.RemoveFrees` | src/components/MatchLineup.tsx:169-172 | a player removed from the field becomes available |
| `MatchLineup.RemoveKeepsExclusive` | src/components/MatchLineup.tsx:169-172 | removal keeps everyone in at most one place |
| `MatchLineup.AddSubstituteKeepsExclusive` | src/components/MatchLineup.tsx:176-177 | benching an available player keeps everyone in at most one place, and the player is no longer available |
| `MatchLineup.AtMostEleven` | src/components/MatchLineup.tsx:34-46 | a lineup keyed by slot ids has at most 11 players |
| `MatchLineup.ElevenIffComplete` | src/components/MatchLineup.tsx:181-186 | a lineup holds 11 players exactly when every slot is filled |
| `MatchLineup.ApplyKeepsInvariant` | src/components/MatchLineup.tsx:157-177 | for any roster, one drop, removal or bench gesture with an available player keeps the lineup well formed and exclusive |
| `MatchLineup.ReplayKeepsInvariant` | src/components/MatchLineup.tsx:157-177 | for any roster, any sequence of such gestures keeps the lineup well formed and exclusive, with at most 11 players |
| `MatchLineup.Board.constructor` | src/components/MatchLineup.tsx:151-152 | the board starts with an empty lineup and an empty bench |
| `MatchLineup.Board.Available` | src/components/MatchLineup.tsx:157-160 | a player is available on the board exactly when they are in the squad and on neither the board's field nor its bench |
| `MatchLineup.Board.DropToField` | src/components/MatchLineup.tsx:162-165 | slot `s` now holds the player as a starter, and every other slot is unchanged |
| `MatchLineup.StaleDrop` | src/components/MatchLineup.tsx:97-105 | as written: a drop through a slot's drop target sets that slot on a copy of the lineup of the slot's first render; the other slots are those of that render |
| `MatchLineup.StaleDropForgetsEarlierDrops` | src/components/MatchLineup.tsx:97-105 | as written: from the empty first-render lineup, a drop on the left back's slot loses an earlier goalkeeper drop, and every drop leaves exactly one player on the field |
| `MatchLineup.DropsAccumulate` | src/components/MatchLineup.tsx:162-165 | corrected: two drops on different slots applied to the current lineup leave both players placed and the bench as it was |
| `MatchLineup.Board.RemoveFromField` | src/components/MatchLineup.tsx:169-172 | only slot `s` is emptied, and an empty slot stays as it was |
| `MatchLineup.Board.AddSubstitute` | src/components/MatchLineup.tsx:176-177 | the player is appended to the bench |
| `MatchLineup.Board.SaveLineup` | src/components/MatchLineup.tsx:181-186 | save succeeds exactly when the lineup holds 11 players, which is exactly when every slot is filled |
| `TrainingPlans.ToggleById` | src/components/TrainingPlans.tsx:108-114 | an item with that id is present afterwards exactly when it was absent before, and other ids are untouched; a selected id has all its items removed with the rest in order, and an unselected item is appended at the end |
| `TrainingPlans.ToggleSelection` | src/components/TrainingPlans.tsx:108-130 | toggling in one kind's list flips that item's selection, and leaves the other two lists and all other fields |
| `TrainingPlans.IsItemSelected` | src/components/TrainingPlans.tsx:232-241 | true exactly when some item with that id is in that kind's list |
| `TrainingPlans.TotalSelected` | src/components/TrainingPlans.tsx:252 | the count is zero exactly when all three selections are empty |
| `TrainingPlans.HandleCreateTraining` | src/components/TrainingPlans.tsx:132-138 | refused exactly when nothing is selected |
| `TrainingPlans.HandleSaveTraining` | src/components/TrainingPlans.tsx:140-170 | refused exactly for a blank name; otherwise the new plan holds the form and is prepended, and the form and selections are cleared |
| `TrainingPlans.HandleDeletePlan` | src/components/TrainingPlans.tsx:172-179 | removes exactly the plans with that id, and clears the selection when it was that plan |
| `TrainingPlans.HandleEditPlan` | src/components/TrainingPlans.tsx:181-191 | the form and selections take the plan's contents, and edit mode starts |
| `TrainingPlans.Edited` | src/components/TrainingPlans.tsx:201-208 | an updated plan keeps its id, createdAt and custom flag, and takes the form's fields |
| `TrainingPlans.HandleUpdateTraining` | src/components/TrainingPlans.tsx:193-220 | refused for a blank name; replaces only the plans whose id is the edited plan's id; then leaves edit mode and clears the form |
| `TrainingPlans.HandleCancelEdit` | src/components/TrainingPlans.tsx:222-230 | leaves edit mode and clears the form and selections |
| `TrainingPlans.ToggleTwiceRestores` | src/components/TrainingPlans.tsx:108-114 | toggling an item whose id was absent twice gives back the same list |
| `TrainingPlans.ToggleSelectionTwice` | src/components/TrainingPlans.tsx:108-130 | toggling an unselected item twice gives back the same state |
| `TrainingPlans.ToggleKeepsIdsUnique` | src/components/TrainingPlans.tsx:108-130 | a toggle keeps ids unique |
| `TrainingPlans.TogglesKeepIdsUnique` | src/components/TrainingPlans.tsx:108-130 | any sequence of toggles keeps ids unique |
| `TrainingPlans.DeleteKeepsOrder` | src/components/TrainingPlans.tsx:174 | deleting keeps the other plans in their order, prefix by prefix |
| `SessionForm.FromRecord` | src/components/TrainingManager.tsx:55-64 | a loaded session keeps the record's id and focus; each id list is empty exactly when its column is empty |
| `SessionForm.BuildPayload` | src/components/TrainingManager.tsx:93-101 | the payload carries the form's fields, with the id lists comma-joined |
| `SessionForm.PayloadRoundTrip` | src/components/TrainingManager.tsx:93-130 | a saved and reloaded session has the form's id lists, when the ids are non-empty and comma-free |
| `SessionForm.PlanSave` | src/components/TrainingManager.tsx:90-117 | refused exactly for an empty focus; a PUT to the editing id exactly when editing with a non-empty id, and a POST otherwise |
| `SessionForm.ApplySaved` | src/components/TrainingManager.tsx:119-140 | on a success an edit replaces the session with the returned id and a create appends, then the dialog closes; any other outcome changes nothing |
| `SessionForm.EditKeepsOneVersion` | src/components/TrainingManager.tsx:132-133 | a successful edit keeps session ids unique |
| `SessionForm.HandleDelete` | src/components/TrainingManager.tsx:146-148 | once the request answers, whatever its status, exactly the sessions with that id go; a request that throws changes nothing |
| `SessionForm.OpenCreate` | src/components/TrainingManager.tsx:153-166 | the new form preselects every player id in catalogue order and no exercises |
| `SessionForm.OpenCreatePanels` | src/components/TrainingManager.tsx:153-166 | right after opening, the absent panel is empty and every exercise is still to pick |
| `SessionForm.NoneLeft` | src/components/TrainingManager.tsx:328-334 | when every player is selected, the absent panel is empty |
| `SessionForm.PreselectPlayers` | src/components/TrainingManager.tsx:83-87 | while creating with a non-empty catalogue, the form selects every player; otherwise nothing changes |
| `SessionForm.OpenEdit` | src/components/TrainingManager.tsx:168-181 | the form takes the session's fields, and edit mode starts with its id |
| `SessionForm.TogglePlayer` | src/components/TrainingManager.tsx:185-195 | flips the id's membership in the player list, and leaves the exercise list and other fields |
| `SessionForm.ToggleExercise` | src/components/TrainingManager.tsx:197-207 | flips the id's membership in the exercise list, and leaves the player list and other fields |
| `SessionForm.TogglePlayerTwice` | src/components/TrainingManager.tsx:185-195 | toggling twice is the identity for an id that was absent, and always restores membership |
| `SessionForm.ToggleExerciseTwice` | src/components/TrainingManager.tsx:197-207 | toggling twice is the identity for an id that was absent, and always restores membership |
| `SessionForm.AbsentPlayers` | src/components/TrainingManager.tsx:328 | keeps exactly the catalogue players whose id is not selected |
| `SessionForm.AvailableExercises` | src/components/TrainingManager.tsx:347 | keeps exactly the catalogue exercises whose id is not selected |
| `SessionForm.PlayersPartition` | src/components/TrainingManager.tsx:328 | every catalogue player is either selected or absent, never both |
| `SessionForm.ExercisePanelsDisjoint` | src/components/TrainingManager.tsx:347-368 | the available and selected exercise panels never share an id |
| `SessionForm.PickExercise` | src/components/TrainingManager.tsx:347-355 | picking an available exercise takes it out of the panel and leaves the rest of the panel |
| `ExerciseLibrary.WithField` | src/components/ExercisesLibrary.tsx:229 | writing one list field leaves the other three |
| `ExerciseLibrary.ToggleSelection` | src/components/ExercisesLibrary.tsx:226-230 | flips the item's membership in that one field, and leaves the other three lists and every scalar field |
| `ExerciseLibrary.ToggleSelectionTwice` | src/components/ExercisesLibrary.tsx:226-230 | toggling an absent tag twice gives back the same form |
| `ExerciseLibrary.LoadExercise` | src/components/ExercisesLibrary.tsx:76-91 | a loaded exercise keeps the record's id and media URL, is custom, and has comma-free tag lists |
| `ExerciseLibrary.LoadAll` | src/components/ExercisesLibrary.tsx:76-91 | every record is mapped, in order |
| `ExerciseLibrary.LoadExercises` | src/components/ExercisesLibrary.tsx:72-97 | the list starts with the mocks; it is the mocks alone when loading failed, and otherwise the mocks followed by the loaded records, one exercise per record in order |
| `ExerciseLibrary.BuildPayload` | src/components/ExercisesLibrary.tsx:123-136 | tag lists are comma-joined; the media URL is the non-empty preview if there is one, and the form's otherwise |
| `ExerciseLibrary.LoadInvertsSave` | src/components/ExercisesLibrary.tsx:76-136 | loading what a save stored gives back the form's tag lists and text fields, when every tag is non-empty and comma-free |
| `ExerciseLibrary.PlanSave` | src/components/ExercisesLibrary.tsx:117-152 | refused exactly for an empty name or description; a PUT exactly when editing a non-empty id that does not start with `ex` |
| `ExerciseLibrary.SavedExercise` | src/components/ExercisesLibrary.tsx:157-162 | the kept exercise is the form under the returned id and media URL, marked custom |
| `ExerciseLibrary.CloseModal` | src/components/ExercisesLibrary.tsx:202-217 | closes the dialog, ends edit mode, clears the selection and preview, and empties the form |
| `ExerciseLibrary.ApplySaved` | src/components/ExercisesLibrary.tsx:154-172 | as written: an edit replaces the exercises whose id is the RETURNED id, a create appends, and a failure changes nothing |
| `ExerciseLibrary.MockEditIsLost` | src/components/ExercisesLibrary.tsx:140-165 | as written: the save handler, run on an edit-mode state holding the mock `ex1`, issues a POST, and the answer under a new id leaves the list unchanged (a state the page does not reach) |
| `ExerciseLibrary.ApplySavedFixed` | src/components/ExercisesLibrary.tsx:154-172 | corrected: an edit replaces the exercise that was opened |
| `ExerciseLibrary.EditIsKept` | src/components/ExercisesLibrary.tsx:164-165 | with the correction, a successful edit's result is in the list, and the old id is gone unless the backend kept it |
| `ExerciseLibrary.FixedAgreesOnUpdate` | src/components/ExercisesLibrary.tsx:140-165 | when the backend answers with the id it was sent, the correction behaves as written |
| `ExerciseLibrary.MockDeleteNeedsNoRequest` | src/components/ExercisesLibrary.tsx:180-188 | deleting a mock gives the same result whatever the server would answer; any other id is kept when the server refuses |
| `ExerciseLibrary.DeleteExercise` | src/components/ExercisesLibrary.tsx:179-199 | a mock is removed locally; any other id is removed only on a success status; a removal drops exactly that id, keeps the order of the rest and clears the selection |
| `ExerciseLibrary.OpenEditModal` | src/components/ExercisesLibrary.tsx:219-224 | the form takes the exercise, the preview its non-empty media URL, and edit mode starts |
| `ExerciseLibrary.FilteredExercises` | src/components/ExercisesLibrary.tsx:241-243 | keeps exactly the exercises whose lower-cased name contains the lower-cased query |
| `ExerciseLibrary.EmptyQueryKeepsAll` | src/components/ExercisesLibrary.tsx:241-243 | an empty query keeps every exercise, in order |
| `ExerciseLibrary.SearchIgnoresCase` | src/components/ExercisesLibrary.tsx:241-243 | queries differing only in ASCII letter case give the same result |

## Left out

- Network requests are not modelled. Each handler that branches on a request takes the outcome as a parameter: failed, error status, or the stored record. Loading the player and exercise catalogues, and the selector lists, is only this I/O; the loaded data is an input. The FastAPI backend is not part of this model. A backend that echoes the payload (`Stored`) stands in for it where a round trip is stated.
- `localStorage` reads and writes are not modelled; stored plans are the planner's initial state.
- react-dnd wiring is not modelled; each completed gesture is one call (`Drop`, `DropToField`, `Hover`).
- `MatchLineup.Board.DropToField`: it models the handler on the current lineup, which is the intended behaviour. The drop spec of a slot (src/components/MatchLineup.tsx:97-105) is a factory given without a dependency list; react-dnd builds such a spec once. Each slot's drop therefore calls the handler of the first render, whose lineup is empty. That as-written behaviour is `MatchLineup.StaleDrop` and is listed under Findings. The react-dnd version is not part of this model.
- `Date.now()` ids and `toLocaleDateString`/`toISOString` dates are string parameters (`stamp`, `id`, `createdAt`, `today`). Two drops in the same millisecond would give equal entry ids; the model takes distinct stamps.
- Toasts, modal and tab flags, which tab is active, expanded sections, search-box state and rendering are not modelled. Only the dialog flags the handlers change in the same step as the data are kept.
- `FileReader` uploads are not modelled; the media preview is an opaque optional string.
- `toLowerCase` is modelled for ASCII letters only; other characters are left unchanged. `trim()` uses the ECMAScript whitespace characters explicitly.
- A JavaScript `null` or `undefined` text column is modelled as `""`, and a missing count as `0`. That matches the `|| ''`, `|| 0` and `? split : []` fallbacks: an exercise's setup, variations, coaching points, goalkeepers and tag lists, and a session's player and exercise id lists. The other columns have no fallback: an exercise's name, description and intensity (src/components/ExercisesLibrary.tsx:77-79), and a session's date, start and end time, focus and intensity (src/components/TrainingManager.tsx:56-61). They are modelled as plain strings because backend/schemas.py:81-83 and 103-107 declare them as required strings.
- `SessionForm.ApplySaved` and `ExerciseLibrary.ApplySaved`: each save is modelled as one atomic step. The handlers read the form and the edit flag when the button is clicked, but apply their `prev =>` updates when the response arrives. Other changes to the list in between are not modelled.
- JavaScript numbers are modelled as unbounded integers. Durations never leave the safe-integer range in practice.
- `SessionPlanner.Planner.UpdateDuration`: requires an in-range index. Every caller is a card of an existing entry. Outside that range the source would pad the array, which is not modelled.
- `SessionPlanner.Planner.RemoveFromTimeline`: the expanded set keeps its indices after a removal, so it can then refer to a different entry. The method leaves that set unchanged, as the source does.
- `SessionPlanner.Planner.AddSelectedToSession`: requires an open details view. The button exists only while a plan is selected.
- `SessionForm.TogglePlayerTwice`, `SessionForm.ToggleExerciseTwice`: toggling twice is the identity only for an id that was absent. For a present id membership is restored, but the id moves to the end (`Lists.ToggledTwicePresentReorders`).
- `TrainingPlans.ToggleSelectionTwice`: the same limit holds; it is stated for an unselected item.
- `TrainingBuilder.MoveExercise`: requires both indices in range. The hover rule only passes indices of rendered cards.
- The search filters of the training list (components/TrainingManager.tsx:125-128) and of the item catalogues (src/components/TrainingPlans.tsx:359, 417, 475) are not modelled. They are display filters of the same shape as `SessionPlanner.VisiblePlans`.
- Custom catalogue items loaded from storage, the intensity colour helpers, and the optional fields of an `Item` are not modelled.
- The item's `type` tag is modelled as `ItemKind`.
- The root router sends the session-planner route to the other training component. The planner component is modelled on its own.

## Findings

| source | as written | input that shows it | evidently intended | confidence | as-written member | corrected member |
|---|---|---|---|---|---|---|
| src/components/ExercisesLibrary.tsx:140-165 | after an edit, the list is map-replaced by the id the backend returns; when editing a mock the save was a POST, so that id is new | a state in edit mode whose form holds the mock `ex1`, renamed, then saved; the POST answers with id `uuid-1`; no listed exercise has that id, so the list stays `[ex1]` unchanged and the edit is not shown. The page does not reach this state: Edit is rendered only for custom exercises (lines 288-306), `ex1` is not custom (line 39), and backend ids are `uuid4` strings (backend/models.py:6-7, 60), which never start with `ex`. The defect is latent in the handler | an edit replaces the exercise that was opened, so the mock gives way to its stored copy | not executed; latent, not reachable from the current page | `ExerciseLibrary.MockEditIsLost` | `ExerciseLibrary.ApplySavedFixed` |
| src/components/MatchLineup.tsx:97-105 | each slot's drop spec is a factory passed without a dependency list, so react-dnd keeps the first one built; its `drop` calls the first render's `handleDropToField` (lines 162-167), which copies that render's empty lineup | drop one player on `gk-1`, then another on `lb-1`; the second drop copies the empty lineup, so the field holds only the left back; no series of drops fills more than one slot, so Save stays disabled | each drop adds to the current lineup, e.g. with `setLineup(prev => ...)` as the session planner does, or with `[onDrop]` as dependencies | not executed; depends on react-dnd memoizing a spec factory when no dependencies are given | `MatchLineup.StaleDropForgetsEarlierDrops` | `MatchLineup.DropsAccumulate` |
