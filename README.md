# Mapty workouts — a Dafny model

Mapty is a browser map widget for logging workouts. The user clicks a point
on the map and fills in a form. The application then records a running or
cycling workout with a derived metric: pace in min/km for a run, speed in km/h
for a ride. It shows the workout as a map marker and as a list entry, and
saves the list in local storage. Workouts can be edited, deleted one by one,
deleted all at once, and shown sorted by a field in either direction.

This project models the core of `script.js` in five modules:

- `Wrappers` (`wrappers.dfy`): the `Option` type.
- `Text` (`text.dfy`): the string operations behind the description
  "Running on April 14":
  - upper-casing the first letter;
  - writing the day in decimal;
  - the inverse readings (splitting into words, reading a number back) that
    the model uses to prove a description can be read back; the code itself
    never reads one back.
- `Workouts` (`workouts.dfy`):
  - the `Workout`, `Running` and `Cycling` classes as one datatype with two
    constructors, which is how the stored records behave (never changed once
    shared);
  - `calcPace`, `calcSpeed` and `_setDescription`;
  - the form validator `_workoutObj`.
- `Ordering` (`ordering.dfy`):
  - the `asc` and `desc` comparators of `_orderBy`;
  - the sorted copy `_sortBy` renders.
- `Store` (`store.dfy`):
  - the two parallel lists `#workouts` and `#mapLayers` of `App`, as the
    class `App` with `seq` fields;
  - specification functions on a `State` value for the create, edit, delete
    and save handlers, so that the postconditions of `RenderAndSave`,
    `NewWorkout`, `SubmitEdit` and `DeleteWorkout` are
    `Model() == F(old(Model()), …)`; the other methods state their new
    state directly;
  - lemmas about those functions: alignment of the two lists, well-formed
    workouts, unique ids, what each handler keeps and what it changes.

How inputs are represented:

- The form is a `FormInput`. Each number is `+input.value`, and `None` stands
  for a value that is not finite.
- The creation time (`Date.now()` for the id, `new Date()` for the
  description) is passed in as parameters.
- A map marker is recorded by what it shows: position, popup class and
  popup text.

## Model

| member | source | states |
|---|---|---|
| Workouts.Workout.Type | script.js:34-51 | the type is "running" exactly for the `Running` constructor and "cycling" otherwise |
| Workouts.Pace | script.js:44-47 | pace × distance = duration, and the pace is positive for a positive distance and duration |
| Workouts.Speed | script.js:60-63 | speed × duration = 60 × distance (km/h from minutes), and the speed is positive for positive inputs |
| Workouts.NewRunning | script.js:34-47 | the run stores its arguments, id and date; its pace satisfies pace × distance = duration; its description reads back as (running, month, day) |
| Workouts.NewCycling | script.js:50-63 | the ride stores its arguments, id and date; its speed satisfies speed × duration = 60 × distance; its description reads back as (cycling, month, day) |
| Workouts.Description | script.js:25-31 | the description starts with the type, first letter upper-cased, followed by " on ", and ends with digits that read back as the day of the month |
| Text.Capitalize | script.js:28 | `type[0].toUpperCase() + type.slice(1)` keeps the length and every character after the first, and upper-cases a lower-case first letter |
| Text.DecimalDigits | script.js:28-30 | the day as the template literal writes it is a non-empty run of decimal digits with no leading zero, one digit exactly for numbers below 10 |
| Workouts.DescriptionWords | script.js:25-31 | the description splits on spaces into exactly four words: the capitalised type, "on", the month name, the day in decimal |
| Workouts.DescriptionRoundTrip | script.js:25-31 | the description determines the type, the zero-based month and the day it was made from |
| Workouts.MonthIndexOfName | script.js:27-29 | each of the twelve month names is found at its own index, so different months give different names |
| Text.ParseDecimalDigits | script.js:28-30 | the day as the template literal writes it reads back as the same number |
| Text.Upper | script.js:28 | `toUpperCase` maps a lower-case ASCII letter to its upper-case letter and leaves other characters alone |
| Workouts.ValidInputs | script.js:165-166 | `validInputs` holds exactly when no value is non-finite |
| Workouts.AllPositive | script.js:167 | `allPositive` holds exactly when every value is a number above zero; such values are all finite |
| Workouts.WorkoutObj | script.js:164-203 | a run is built exactly when distance, duration and cadence are all finite and positive; a ride exactly when all three of distance, duration and elevation are finite and distance and duration are positive; any other type yields nothing; a built workout has the form's type and values and the given coordinates, id and date, and is well formed |
| Workouts.RunningExample | script.js:164-203 | a 5 km run in 25 min at cadence 150 on 15 October is accepted with pace 5 and description "Running on October 15" |
| Workouts.CyclingExample | script.js:164-203 | a 20 km ride in 60 min with elevation −10 m is accepted (a negative elevation is allowed) with speed 20 |
| Workouts.OctoberDescription | script.js:25-31 | the description of a run on 15 October is "Running on October 15" |
| Ordering.Key | script.js:474-493 | `w[field]` is undefined exactly for cadence and pace on a ride, and for elevation and speed on a run |
| Ordering.Less | script.js:476-489 | `<` on two property values is false whenever either is `undefined`, and never holds between equal values |
| Ordering.LessStrictOrder | script.js:476-489 | on defined values `<` is irreflexive, asymmetric and transitive, and relates any two different values |
| Ordering.Asc | script.js:485-493 | `asc` is negative iff a's value is below b's, positive iff above, and 0 otherwise, including when either value is undefined |
| Ordering.Desc | script.js:475-483 | `desc` is the exact negation of `asc` |
| Ordering.Comparator | script.js:495-496 | the comparator handed to `sort` is `asc` for the ascending label and `desc` for the descending one |
| Ordering.SortedCopy | script.js:460 | `slice().sort(cmp)` returns a permutation of the list; its order under a consistent comparator is `SortedCopyOrdered` |
| Ordering.SortedByField | script.js:455-465 | when every workout has the field, the sorted copy is a permutation of the list, ordered by that field in the chosen direction |
| Ordering.DescReversesAsc | script.js:475-496 | when the workouts have distinct values of the field, sorting descending gives the ascending result in reverse |
| Ordering.SortedCopyOrdered | script.js:460 | under a comparator that is antisymmetric and transitive on the elements, the sorted copy is in comparator order |
| Ordering.InsertOrdered | script.js:460 | inserting into an ordered sequence keeps it ordered |
| Ordering.MirrorReverses | script.js:475-496 | two arrangements of the same elements, ordered by a strict comparator and by its mirror image, are each other's reverse |
| Ordering.ComparatorConsistent | script.js:475-496 | `asc` and `desc` are antisymmetric and transitive on workouts whose field is defined |
| Store.Markers | script.js:111-113 | the marker list has one marker per workout, each at the workout's coordinates |
| Store.MarkerFor | script.js:253-270 | a marker sits at the workout's coordinates and its popup class is `<type>-popup` |
| Store.FindIndex | script.js:223-225 | `findIndex` returns −1 iff no workout has the id; otherwise it returns the first position holding the id |
| Store.RemoveAt | script.js:437-438 | `splice(i, 1)` removes one element: the length drops by one and the multiset loses exactly that element |
| Store.RemoveAtShifts | script.js:437-438 | after `splice(i, 1)`, entries before i stay in place and later ones shift down by one |
| Store.MovedToEnd | script.js:231-238 | `splice(i, 1)` then `push(w)` keeps the length, ends with `w`, and trades the element at `i` for `w` in the multiset |
| Store.Saved | script.js:236-274 | saving appends the workout to `#workouts` and its marker to `#mapLayers`, and changes nothing before them |
| Store.Created | script.js:205-214 | the corrected create (see Findings): the existing workouts and markers stay in place; exactly one workout and one marker are added when the validator accepts the form, and none otherwise; the added workout is the validator's result and the added marker is its marker |
| Store.CreatedKeepsInvariants | script.js:205-214 | the corrected create (see Findings) adds one well-formed workout with the given id and its marker, or changes nothing when the form is rejected; aligned lists stay aligned; a new id keeps ids unique |
| Store.SavedKeepsInvariants | script.js:236-274 | saving a well-formed workout keeps aligned lists aligned and well formed, and keeps ids unique when its id is new |
| Workouts.WellFormedWithId | script.js:230 | overwriting the replacement's id with the edited workout's id keeps it well formed |
| Store.Edited | script.js:216-238 | the edit as written keeps the number of workouts and every existing marker; exactly one marker is added when the edit succeeds, and none otherwise; the added marker is the replacement's marker |
| Store.EditedAligned | script.js:216-238 | the corrected edit (see Findings) keeps the number of workouts and of markers; its workouts are either unchanged or those of the edit as written |
| Store.Replacement | script.js:223-230 | an edit yields a replacement exactly when the id is found and the validator accepts the form at the edited workout's coordinates (otherwise line 227 or 230 throws); the replacement keeps the edited workout's id and coordinates, has the form's type and values and the new date, and is well formed |
| Store.EditReplacesAtEnd | script.js:216-238 | for any stored list, an edit keeps the number of workouts and the multiset of ids; it moves the replacement to the end, keeps the others in order and adds one marker; a failed edit changes nothing; well-formed workouts stay well formed |
| Store.MovedToEndKeepsIds | script.js:230-238 | moving an element to the end as a same-id replacement keeps the others in order and the multiset of ids |
| Store.EditBreaksAlignment | script.js:216-238 | after an edit as written there is one marker more than there are workouts |
| Store.StaleMarkerAfterEditAndDelete | script.js:216-238 | editing the only workout and then deleting it leaves no workouts but the replacement's marker on the map |
| Store.EditedAlignedKeepsAlignment | script.js:216-238 | an edit that also splices out the old marker changes `#workouts` as the code does and keeps the lists aligned |
| Store.MoveBothKeepsAlignment | script.js:231-238 | moving a workout and its marker together keeps aligned lists aligned |
| Store.Deleted | script.js:426-441 | a delete removes the same number of entries from both lists: one from each exactly when the id is found at an index that has a marker, otherwise none |
| Store.DeleteSplicesBoth | script.js:426-441 | a delete splices the same index, the first with the id, out of both lists; a missing id changes nothing |
| Store.DeleteKeepsAlignment | script.js:432-438 | on aligned lists, a delete removes the deleted workout's own marker, happens iff some workout has the id, and keeps the lists aligned |
| Store.RemoveBothKeepsAlignment | script.js:437-438 | splicing the same index out of aligned lists keeps them aligned |
| Store.DeleteKeepsOthers | script.js:437 | a delete adds no workout and keeps every workout with a different id, so all stay well formed |
| Store.DeleteRemovesId | script.js:432-437 | with unique ids, a delete that happens leaves no workout with that id, and ids stay unique |
| Store.PushedAsWritten | script.js:211-238 | the code pushes whatever `_workoutObj` returned after the existing workouts, which are unchanged |
| Store.RejectedCreateStoresUndefined | script.js:205-214 | a rejected create as written leaves `undefined` at the end of `#workouts`; the corrected create leaves the list unchanged |
| Store.EmptyCadenceRejected | script.js:177-184 | a run with an empty cadence field (read as 0) is rejected |
| Store.App.constructor | script.js:364-369 | the workouts are the stored ones if any were stored, otherwise none; there are no markers yet |
| Store.App.RenderWorkoutMarker | script.js:253-274 | the workout's marker is appended to `#mapLayers`; `#workouts` is unchanged |
| Store.App.LoadMap | script.js:111-113 | a marker is appended for each workout in list order; starting without markers, the lists end up aligned |
| Store.App.RenderAndSave | script.js:236-251 | the new state is `Saved` of the old state |
| Store.App.NewWorkout | script.js:205-214 | returns the validator's result; the new state is `Created` of the old state |
| Store.App.SubmitEdit | script.js:216-234 | returns the replacement; the new state is `Edited` of the old state, as written |
| Store.App.DeleteWorkout | script.js:426-441 | reports whether a delete happened (the id was found and has a marker); the new state is `Deleted` of the old state |
| Store.App.DeleteAll | script.js:443-453 | both lists become empty, and so aligned |
| Store.App.SortBy | script.js:455-465 | returns the sorted copy, a permutation of `#workouts` that leaves the list untouched; when every workout has the field, it is ordered by it in the chosen direction |

## Left out

- DOM rendering is not modelled: the list HTML (`_getWorkoutHTML`, `_renderWorkout`), form showing and hiding, `_toggleElevationField`, `_hideOnClick` and `_moveToPopup`.
- Leaflet (the map, tiles, popups and layer removal) is not modelled. A marker is recorded by the content it shows, not by object identity, and the map is assumed loaded.
- Geolocation is not modelled: `_getPosition` and its alert.
- Local storage and JSON are not modelled. Reloaded records are taken to be workouts, although the code gets plain objects back that have lost their class.
- `setTimeout`, `alert`, `location.reload` and `toFixed` are not modelled.
- `Date.now()` and `new Date()` become parameters (the id, and the month and day).
- Numbers are reals. IEEE rounding, NaN and the infinities are not modelled; a non-finite form value is `None`.
- Workouts.Pace, Workouts.Speed: require a non-zero denominator. The validator only calls them after checking positivity, so a division by zero never arises.
- `_editWorkout` is not modelled: it fills the form from a workout. An edit is modelled from the submitted form onward.
- The `form__edit` guard of `_newWorkout` (line 208), the `submit` listener ordering, and the `closest('.workout')` lookups are not modelled. They decide which handler runs, and that is DOM state.
- `_order` is not modelled: it toggles the sort label text. The direction is a `bool`.
- The sort menu's option values live in markup that is not part of this model. The field is the enum `Field`.
- Ordering.SortedCopy: models `Array.prototype.sort` as a stable insertion sort. Stability itself is not stated. When some key is undefined the comparator is not a consistent order, so JavaScript's result is engine-defined; the model then still returns a permutation but states no order.
- `_deleteAll` assigns one array to both fields (`this.#mapLayers = this.#workouts = []`). The aliasing is not modelled because the page reloads at once.
- Store.App.DeleteWorkout: when the id is missing, `removeLayer(undefined)` throws. This is modelled as no change.
- Store.App.SubmitEdit: when the id is missing or the form is rejected, the code throws before changing anything. This is modelled as no change.
- Workouts.AllPositive: reads a non-finite value as not positive, whereas JavaScript's `Infinity > 0` is true. `validInputs` is checked first and rejects such a value, so the validator's result is the same.
- Text.Upper: handles ASCII letters only, which covers the two type names.
- Store.App.NewWorkout: a rejected form changes nothing here. The code instead pushes `undefined` onto `#workouts` (script.js:238) and then throws at `L.marker(workout.coords)` (script.js:254). That behaviour is modelled separately by `Store.PushedAsWritten` and `Store.RejectedCreateStoresUndefined`; see Findings.

## Proof helpers

These have no counterpart in the code, and so no row in the table:
`Text.Split`, `Text.SplitWord`, `Text.SplitJoin`, `Text.ParseNat`,
`Text.IsDigit`, `Text.Digit`, `Text.DigitValue`, `Workouts.ParseDescription`,
`Workouts.KindOfTitle`, `Workouts.MonthIndex`, `Workouts.FindMonth`,
`Workouts.JoinedWords`,
`Workouts.MonthNamesHaveNoSpace`, `Store.Ids`, `Store.IdsAppend`,
`Ordering.Insert` (the insertion step of `SortedCopy`), `Ordering.OrderedPrepend`, `Ordering.MultisetWithoutEnds`,
`Ordering.MirrorEnds`, `Ordering.SortMirrorReverses`,
`Ordering.AscTiesOnlyEqual`.

## Findings

The model follows the code. In two places the code works against what it
evidently means to do:

- A rejected form should create nothing. The code shows the alert "Inputs
  have to be positive numbers!" and returns at script.js:184 and :197, which
  marks the form as refused.
- An edit should keep the two lists index-aligned. `_deleteWorkout` relies
  on that alignment when it removes the marker at the workout's index and
  splices the same index out of both lists (script.js:436-438).

| source | as written | input that shows it | evidently intended | confidence | as-written member | corrected member |
|---|---|---|---|---|---|---|
| script.js:205-214 | `_newWorkout` passes the `undefined` from a rejected `_workoutObj` to `_renderAndSave`, which pushes it onto `#workouts` before `_renderWorkoutMarker` throws reading `workout.coords` | a running form with an empty cadence field (`+"" == 0`) | a rejected form leaves `#workouts` unchanged | not executed | Store.RejectedCreateStoresUndefined | Store.CreatedKeepsInvariants |
| script.js:216-238 | `_submitEdit` splices the old workout out of `#workouts` but not its marker out of `#mapLayers`, then pushes a new marker, so later index-based deletes remove the wrong marker | edit the only workout, then delete it: no workouts are left, but the replacement's marker stays on the map | the old marker is removed at the same index, as `_deleteWorkout` does | not executed | Store.StaleMarkerAfterEditAndDelete | Store.EditedAlignedKeepsAlignment |

`App.NewWorkout` uses the corrected create (`Store.Created`). `App.SubmitEdit`
models the edit as written (`Store.Edited`). `Store.EditedAligned` is the
corrected edit.

Two other effects of an edit may be unexpected, but they are not defects.
The model follows the code in both:

- An edited workout gets a fresh date, and so a fresh description.
- An edited workout moves to the end of the list.
