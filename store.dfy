/** The workout store of `App`: the parallel lists `#workouts` and
    `#mapLayers`, and the handlers that change them (create, edit, delete
    one, delete all) or read them (sort). */
module Store {
  import opened Wrappers
  import opened Workouts
  import opened Ordering

  /** The popup emojis: a man running and a woman biking. */
  const RUNNER_EMOJI: string := "\U{1F3C3}\U{200D}\U{2642}\U{FE0F}"
  const CYCLIST_EMOJI: string := "\U{1F6B4}\U{200D}\U{2640}\U{FE0F}"

  /** What `_renderWorkoutMarker` puts on the map: a marker at the workout's
      coordinates whose popup carries the type's style class and shows an
      emoji and the description. A marker is recorded by what it shows. */
  datatype Marker = Marker(at: Coords, popupClass: string, popupContent: string)

  function MarkerFor(w: Workout): (m: Marker)
    ensures m.at == w.coords
    ensures m.popupClass == w.Type() + "-popup"
  {
    Marker(w.coords, w.Type() + "-popup",
           (if w.Type() == RUNNING then RUNNER_EMOJI else CYCLIST_EMOJI) + " " + w.description)
  }

  /** The markers of a list of workouts, in the same order. */
  function Markers(ws: seq<Workout>): (ms: seq<Marker>)
    ensures |ms| == |ws| && forall i :: 0 <= i < |ws| ==> ms[i] == MarkerFor(ws[i])
  {
    seq(|ws|, i requires 0 <= i < |ws| => MarkerFor(ws[i]))
  }

  /** The two lists `#workouts` and `#mapLayers`. */
  datatype State = State(workouts: seq<Workout>, mapLayers: seq<Marker>)

  /** The intended coupling of the two lists: marker `i` is the marker of
      workout `i`, and there are as many markers as workouts. */
  predicate Aligned(s: State) {
    s.mapLayers == Markers(s.workouts)
  }

  predicate AllWellFormed(ws: seq<Workout>) {
    forall w :: w in ws ==> WellFormed(w)
  }

  function Ids(ws: seq<Workout>): (ids: seq<string>)
    ensures |ids| == |ws| && forall i :: 0 <= i < |ws| ==> ids[i] == ws[i].id
  {
    seq(|ws|, i requires 0 <= i < |ws| => ws[i].id)
  }

  predicate UniqueIds(ws: seq<Workout>) {
    forall i, j :: 0 <= i < j < |ws| ==> ws[i].id != ws[j].id
  }

  /** `findIndex(wo => wo.id === id)`: the first position holding that id,
      or -1 when there is none. */
  function FindIndex(ws: seq<Workout>, id: string): (i: int)
    ensures -1 <= i < |ws|
    ensures i == -1 <==> forall k :: 0 <= k < |ws| ==> ws[k].id != id
    ensures 0 <= i ==> ws[i].id == id && forall k :: 0 <= k < i ==> ws[k].id != id
  {
    if |ws| == 0 then -1
    else if ws[0].id == id then 0
    else
      var j := FindIndex(ws[1..], id);
      if j == -1 then -1 else j + 1
  }

  /** `splice(i, 1)`: the sequence without its element at `i`. */
  function RemoveAt<T>(s: seq<T>, i: nat): (r: seq<T>)
    requires i < |s|
    ensures |r| == |s| - 1
    ensures multiset(r) == multiset(s) - multiset{s[i]}
  {
    assert s == s[..i] + [s[i]] + s[i + 1..];
    s[..i] + s[i + 1..]
  }

  /** `splice(i, 1)` followed by `push(w)`: the element at `i` leaves its
      place and `w` goes at the end. */
  function MovedToEnd<T>(s: seq<T>, i: nat, w: T): (r: seq<T>)
    requires i < |s|
    ensures |r| == |s| && r[|r| - 1] == w
    ensures multiset(r) == multiset(s) - multiset{s[i]} + multiset{w}
  {
    RemoveAt(s, i) + [w]
  }

  /** `_renderAndSave` with the push of `_renderWorkoutMarker`: the workout
      goes at the end of `#workouts` and its marker at the end of
      `#mapLayers`; nothing before them moves. */
  function Saved(s: State, w: Workout): (t: State)
    ensures |t.workouts| == |s.workouts| + 1 && |t.mapLayers| == |s.mapLayers| + 1
    ensures t.workouts[..|s.workouts|] == s.workouts && t.workouts[|s.workouts|] == w
    ensures t.mapLayers[..|s.mapLayers|] == s.mapLayers && t.mapLayers[|s.mapLayers|] == MarkerFor(w)
  {
    State(s.workouts + [w], s.mapLayers + [MarkerFor(w)])
  }

  /** `_newWorkout`, with a rejected form leaving both lists as they were
      (see `PushedAsWritten` for what the code does instead). */
  function Created(s: State, input: FormInput, coords: Coords, id: string, date: Date): (t: State)
    ensures |t.workouts| == |s.workouts| || |t.workouts| == |s.workouts| + 1
    ensures |t.workouts| - |s.workouts| == |t.mapLayers| - |s.mapLayers|
    ensures |t.workouts| == |s.workouts| + 1 <==> WorkoutObj(input, coords, id, date).Some?
    ensures t.workouts[..|s.workouts|] == s.workouts && t.mapLayers[..|s.mapLayers|] == s.mapLayers
    ensures WorkoutObj(input, coords, id, date).Some? ==>
      && t.workouts[|s.workouts|] == WorkoutObj(input, coords, id, date).value
      && t.mapLayers[|s.mapLayers|] == MarkerFor(WorkoutObj(input, coords, id, date).value)
  {
    match WorkoutObj(input, coords, id, date)
    case None => s
    case Some(w) => Saved(s, w)
  }

  /** The workout an edit of workout `id` pushes: the form's workout at the
      edited workout's coordinates, carrying the edited workout's id. `None`
      when the id is not found (the `coords` read at line 227 throws) or the
      form is rejected (the `id` assignment at line 230 throws). */
  function Replacement(s: State, id: string, input: FormInput, freshId: string, date: Date): (r: Option<Workout>)
    ensures r.Some? ==> 0 <= FindIndex(s.workouts, id)
    ensures var i := FindIndex(s.workouts, id);
      r.Some? <==> 0 <= i && WorkoutObj(input, s.workouts[i].coords, freshId, date).Some?
    ensures r.Some? ==> var edited := s.workouts[FindIndex(s.workouts, id)];
      r.value.id == edited.id == id && r.value.coords == edited.coords && WellFormed(r.value)
    ensures r.Some? ==>
      && r.value.Type() == input.kind && r.value.date == date
      && r.value.distance == input.distance.value && r.value.duration == input.duration.value
      && (r.value.Running? ==> r.value.cadence == input.cadence.value)
      && (r.value.Cycling? ==> r.value.elevation == input.elevation.value)
  {
    var i := FindIndex(s.workouts, id);
    if i < 0 then None
    else
      match WorkoutObj(input, s.workouts[i].coords, freshId, date)
      case None => None
      case Some(w) =>
        WellFormedWithId(w, s.workouts[i].id);
        Some(w.(id := s.workouts[i].id))
  }

  /** `_submitEdit` as written: the edited workout is spliced out of
      `#workouts` and its replacement pushed at the end, and a marker for the
      replacement is pushed, but the old marker stays in `#mapLayers`. */
  function Edited(s: State, id: string, input: FormInput, freshId: string, date: Date): (t: State)
    ensures |t.mapLayers| == |s.mapLayers| || |t.mapLayers| == |s.mapLayers| + 1
    ensures |t.mapLayers| == |s.mapLayers| + 1 <==> Replacement(s, id, input, freshId, date).Some?
    ensures |t.workouts| == |s.workouts| && t.mapLayers[..|s.mapLayers|] == s.mapLayers
    ensures Replacement(s, id, input, freshId, date).Some? ==>
      t.mapLayers[|s.mapLayers|] == MarkerFor(Replacement(s, id, input, freshId, date).value)
  {
    match Replacement(s, id, input, freshId, date)
    case None => s
    case Some(w) => State(MovedToEnd(s.workouts, FindIndex(s.workouts, id), w), s.mapLayers + [MarkerFor(w)])
  }

  /** `_submitEdit` with the old marker removed at the same index as the old
      workout, as `_deleteWorkout` does. */
  function EditedAligned(s: State, id: string, input: FormInput, freshId: string, date: Date): (t: State)
    ensures |t.workouts| == |s.workouts| && |t.mapLayers| == |s.mapLayers|
    ensures t.workouts == s.workouts || t.workouts == Edited(s, id, input, freshId, date).workouts
  {
    var i := FindIndex(s.workouts, id);
    match Replacement(s, id, input, freshId, date)
    case None => s
    case Some(w) =>
      if i < |s.mapLayers| then State(MovedToEnd(s.workouts, i, w), RemoveAt(s.mapLayers, i) + [MarkerFor(w)])
      else s
  }

  /** `_deleteWorkout`: the same index is spliced out of both lists. When the
      id is not found, or the index has no marker, `removeLayer(undefined)`
      throws before either splice and nothing changes. */
  function Deleted(s: State, id: string): (t: State)
    ensures |s.workouts| - |t.workouts| == |s.mapLayers| - |t.mapLayers|
    ensures |t.workouts| == |s.workouts| - 1 <==> 0 <= FindIndex(s.workouts, id) < |s.mapLayers|
    ensures |t.workouts| == |s.workouts| || |t.workouts| == |s.workouts| - 1
  {
    var i := FindIndex(s.workouts, id);
    if 0 <= i < |s.mapLayers| then State(RemoveAt(s.workouts, i), RemoveAt(s.mapLayers, i))
    else s
  }

  lemma IdsAppend(a: seq<Workout>, b: seq<Workout>)
    ensures Ids(a + b) == Ids(a) + Ids(b)
  {
  }

  /** A create adds one well-formed workout and its marker at the ends of the
      lists, or changes nothing when the form is rejected; either way the
      lists stay aligned, well formed and, for a new id, free of duplicate
      ids. */
  lemma CreatedKeepsInvariants(s: State, input: FormInput, coords: Coords, id: string, date: Date)
    requires Aligned(s) && AllWellFormed(s.workouts)
    ensures var t := Created(s, input, coords, id, date);
      && Aligned(t) && AllWellFormed(t.workouts)
      && (WorkoutObj(input, coords, id, date).None? ==> t == s)
      && (WorkoutObj(input, coords, id, date).Some? ==>
            |t.workouts| == |s.workouts| + 1 && t.workouts[|s.workouts|].id == id)
      && (UniqueIds(s.workouts) && id !in Ids(s.workouts) ==> UniqueIds(t.workouts))
  {
    var r := WorkoutObj(input, coords, id, date);
    if r.Some? {
      SavedKeepsInvariants(s, r.value);
    }
  }

  /** Saving a well-formed workout keeps aligned lists aligned and well
      formed, and keeps ids unique when its id is new. */
  lemma SavedKeepsInvariants(s: State, w: Workout)
    requires Aligned(s) && AllWellFormed(s.workouts) && WellFormed(w)
    ensures var t := Saved(s, w);
      && Aligned(t) && AllWellFormed(t.workouts)
      && (UniqueIds(s.workouts) && w.id !in Ids(s.workouts) ==> UniqueIds(t.workouts))
  {
    var t := Saved(s, w);
    assert t.workouts == s.workouts + [w];
    assert Markers(t.workouts) == Markers(s.workouts) + [MarkerFor(w)];
  }

  /** Splicing out index `i` keeps the entries before `i` in place and shifts
      those after it down by one. */
  lemma RemoveAtShifts<T>(s: seq<T>, i: nat)
    requires i < |s|
    ensures var r := RemoveAt(s, i);
      && (forall k :: 0 <= k < i ==> r[k] == s[k])
      && (forall k :: i <= k < |r| ==> r[k] == s[k + 1])
  {
  }

  /** Deleting splices the first workout with the id and the marker at the
      same index out of the two lists; every other entry keeps its relative
      order. A missing id, or an index with no marker, changes nothing. */
  lemma DeleteSplicesBoth(s: State, id: string)
    ensures var i, t := FindIndex(s.workouts, id), Deleted(s, id);
      if 0 <= i < |s.mapLayers| then
        && s.workouts[i].id == id
        && |t.workouts| == |s.workouts| - 1 && |t.mapLayers| == |s.mapLayers| - 1
        && t.workouts[..i] == s.workouts[..i] && t.workouts[i..] == s.workouts[i + 1..]
        && t.mapLayers[..i] == s.mapLayers[..i] && t.mapLayers[i..] == s.mapLayers[i + 1..]
      else t == s
  {
  }

  /** Splicing the same index out of aligned lists keeps them aligned. */
  lemma RemoveBothKeepsAlignment(s: State, i: nat)
    requires Aligned(s) && i < |s.workouts|
    ensures Aligned(State(RemoveAt(s.workouts, i), RemoveAt(s.mapLayers, i)))
  {
  }

  /** On aligned lists a delete removes the deleted workout's own marker, and
      happens exactly when some workout has the id; the lists stay aligned. */
  lemma DeleteKeepsAlignment(s: State, id: string)
    requires Aligned(s)
    ensures var i, t := FindIndex(s.workouts, id), Deleted(s, id);
      && Aligned(t)
      && (id in Ids(s.workouts) <==> |t.workouts| == |s.workouts| - 1)
      && (0 <= i ==> s.mapLayers[i] == MarkerFor(s.workouts[i]))
  {
    var i := FindIndex(s.workouts, id);
    if 0 <= i {
      RemoveBothKeepsAlignment(s, i);
      assert Ids(s.workouts)[i] == id;
    } else {
      assert id !in Ids(s.workouts);
    }
  }

  /** A delete keeps every workout without that id and adds none, so the
      workouts stay well formed. */
  lemma DeleteKeepsOthers(s: State, id: string)
    requires AllWellFormed(s.workouts)
    ensures var t := Deleted(s, id);
      && AllWellFormed(t.workouts)
      && (forall w :: w in t.workouts ==> w in s.workouts)
      && (forall w :: w in s.workouts && w.id != id ==> w in t.workouts)
  {
  }

  /** With unique ids, a delete that happens leaves no workout with that id,
      and the ids stay unique. */
  lemma DeleteRemovesId(s: State, id: string)
    requires UniqueIds(s.workouts)
    ensures var i, t := FindIndex(s.workouts, id), Deleted(s, id);
      && UniqueIds(t.workouts)
      && (0 <= i < |s.mapLayers| ==> forall k :: 0 <= k < |t.workouts| ==> t.workouts[k].id != id)
  {
  }

  /** Moving the element at `i` to the end as a replacement with the same
      id: the others keep their order, and the multiset of ids is the same. */
  lemma MovedToEndKeepsIds(ws: seq<Workout>, i: nat, w: Workout)
    requires i < |ws| && w.id == ws[i].id
    ensures var r := MovedToEnd(ws, i, w);
      && |r| == |ws| && r[|r| - 1] == w
      && r[..i] == ws[..i] && r[i..|r| - 1] == ws[i + 1..]
      && (forall v :: v in r ==> v in ws || v == w)
      && multiset(Ids(r)) == multiset(Ids(ws))
  {
    var r := MovedToEnd(ws, i, w);
    assert r == ws[..i] + ws[i + 1..] + [w];
    IdsAppend(ws[..i], ws[i + 1..]);
    IdsAppend(ws[..i] + ws[i + 1..], [w]);
    IdsAppend(ws[..i], [ws[i]]);
    IdsAppend(ws[..i] + [ws[i]], ws[i + 1..]);
    assert ws == ws[..i] + [ws[i]] + ws[i + 1..];
    assert Ids([w]) == Ids([ws[i]]);
  }

  /** An edit as written keeps the number of workouts and the multiset of
      their ids, moves the edited workout to the end with its id and
      coordinates, keeps the others in order and every workout well formed,
      and adds one marker; a failed edit changes nothing. */
  lemma EditReplacesAtEnd(s: State, id: string, input: FormInput, freshId: string, date: Date)
    ensures var t, r := Edited(s, id, input, freshId, date), Replacement(s, id, input, freshId, date);
      && (AllWellFormed(s.workouts) ==> AllWellFormed(t.workouts))
      && (r.None? ==> t == s)
      && (r.Some? ==>
            var i := FindIndex(s.workouts, id);
            && |t.workouts| == |s.workouts| && |t.mapLayers| == |s.mapLayers| + 1
            && t.workouts[|t.workouts| - 1] == r.value
            && r.value.id == id && r.value.coords == s.workouts[i].coords
            && t.workouts[..i] == s.workouts[..i] && t.workouts[i..|t.workouts| - 1] == s.workouts[i + 1..]
            && t.mapLayers[..|s.mapLayers|] == s.mapLayers
            && multiset(Ids(t.workouts)) == multiset(Ids(s.workouts)))
  {
    var r := Replacement(s, id, input, freshId, date);
    if r.Some? {
      MovedToEndKeepsIds(s.workouts, FindIndex(s.workouts, id), r.value);
    }
  }

  /** An edit as written leaves the lists misaligned: the old marker stays
      and the replacement's marker is added, so there is one marker more
      than there are workouts. */
  lemma EditBreaksAlignment(s: State, id: string, input: FormInput, freshId: string, date: Date)
    requires Aligned(s) && Replacement(s, id, input, freshId, date).Some?
    ensures var t := Edited(s, id, input, freshId, date);
      !Aligned(t) && |t.mapLayers| == |t.workouts| + 1
  {
  }

  /** Consequence of the misalignment: edit the only workout, then delete it.
      The workout list is empty, yet the map still shows the replacement's
      marker, because the delete removed the stale one at index 0. */
  lemma StaleMarkerAfterEditAndDelete(w: Workout, input: FormInput, freshId: string, date: Date)
    requires Replacement(State([w], [MarkerFor(w)]), w.id, input, freshId, date).Some?
    ensures var r := Replacement(State([w], [MarkerFor(w)]), w.id, input, freshId, date).value;
      var t := Deleted(Edited(State([w], [MarkerFor(w)]), w.id, input, freshId, date), w.id);
      t.workouts == [] && t.mapLayers == [MarkerFor(r)]
  {
    var s := State([w], [MarkerFor(w)]);
    var r := Replacement(s, w.id, input, freshId, date).value;
    assert FindIndex(s.workouts, w.id) == 0;
    assert RemoveAt(s.workouts, 0) == [];
    var e := Edited(s, w.id, input, freshId, date);
    assert e.workouts == [r];
    assert e.mapLayers == [MarkerFor(w), MarkerFor(r)];
    assert FindIndex(e.workouts, w.id) == 0;
    assert RemoveAt(e.mapLayers, 0) == [MarkerFor(r)];
  }

  /** Moving workout `i` to the end and its marker with it keeps aligned
      lists aligned. */
  lemma MoveBothKeepsAlignment(s: State, i: nat, w: Workout)
    requires Aligned(s) && i < |s.workouts|
    ensures Aligned(State(MovedToEnd(s.workouts, i, w), RemoveAt(s.mapLayers, i) + [MarkerFor(w)]))
  {
    RemoveAtShifts(s.workouts, i);
    RemoveAtShifts(s.mapLayers, i);
    var ws, ms := MovedToEnd(s.workouts, i, w), RemoveAt(s.mapLayers, i) + [MarkerFor(w)];
    assert Markers(ws) == ms;
  }

  /** The corrected edit changes `#workouts` exactly as the written one does
      and keeps the lists aligned. */
  lemma EditedAlignedKeepsAlignment(s: State, id: string, input: FormInput, freshId: string, date: Date)
    requires Aligned(s)
    ensures var t := EditedAligned(s, id, input, freshId, date);
      Aligned(t) && t.workouts == Edited(s, id, input, freshId, date).workouts
  {
    var r := Replacement(s, id, input, freshId, date);
    if r.Some? {
      MoveBothKeepsAlignment(s, FindIndex(s.workouts, id), r.value);
    }
  }

  /** An entry of `#workouts` as the code can leave it: `undefined`, or a
      workout. */
  datatype Slot = Undefined | Stored(workout: Workout)

  /** `_newWorkout` as written: line 238 pushes whatever `_workoutObj`
      returned, `undefined` included; for `undefined` the `coords` read at
      line 254 then throws, so no marker is pushed. */
  function PushedAsWritten(ws: seq<Workout>, r: Option<Workout>): (slots: seq<Slot>)
    ensures |slots| == |ws| + 1
    ensures forall i :: 0 <= i < |ws| ==> slots[i] == Stored(ws[i])
    ensures slots[|ws|] == if r.Some? then Stored(r.value) else Undefined
  {
    seq(|ws|, i requires 0 <= i < |ws| => Stored(ws[i]))
      + [if r.Some? then Stored(r.value) else Undefined]
  }

  /** A rejected create, as written, leaves an `undefined` entry at the end
      of `#workouts` instead of leaving the list unchanged. The input an
      empty cadence field gives a run is one such rejected form. */
  lemma RejectedCreateStoresUndefined(ws: seq<Workout>, input: FormInput, coords: Coords, id: string, date: Date)
    requires WorkoutObj(input, coords, id, date).None?
    ensures var slots := PushedAsWritten(ws, WorkoutObj(input, coords, id, date));
      |slots| == |ws| + 1 && slots[|ws|] == Undefined
    ensures Created(State(ws, []), input, coords, id, date).workouts == ws
  {
  }

  /** The scenario of an empty cadence field on a run: the form is rejected. */
  lemma EmptyCadenceRejected(coords: Coords, id: string, date: Date)
    ensures WorkoutObj(FormInput(RUNNING, Some(5.0), Some(25.0), Some(0.0), None), coords, id, date).None?
  {
  }

  /** The `App` object's workout state. Map, form and storage collaborators
      are not modelled; the map is assumed loaded. */
  class App {
    var workouts: seq<Workout>
    var mapLayers: seq<Marker>

    function Model(): State
      reads this
    {
      State(workouts, mapLayers)
    }

    /** The constructor with `_getLocalStorage`: the stored workouts, if any
        were stored, and no markers yet. */
    constructor (stored: Option<seq<Workout>>)
      ensures workouts == (if stored.Some? then stored.value else [])
      ensures mapLayers == []
    {
      workouts := if stored.Some? then stored.value else [];
      mapLayers := [];
    }

    /** `_renderWorkoutMarker`: the marker's push onto `#mapLayers`. */
    method RenderWorkoutMarker(w: Workout)
      modifies this
      ensures workouts == old(workouts)
      ensures mapLayers == old(mapLayers) + [MarkerFor(w)]
    {
      mapLayers := mapLayers + [MarkerFor(w)];
    }

    /** `_loadMap`: a marker for each workout, in list order. Starting from
        no markers, the lists end up aligned. */
    method LoadMap()
      modifies this
      ensures workouts == old(workouts)
      ensures mapLayers == old(mapLayers) + Markers(workouts)
      ensures old(mapLayers) == [] ==> Aligned(Model())
    {
      var i := 0;
      while i < |workouts|
        invariant 0 <= i <= |workouts| && workouts == old(workouts)
        invariant mapLayers == old(mapLayers) + Markers(workouts[..i])
      {
        assert Markers(workouts[..i + 1]) == Markers(workouts[..i]) + [MarkerFor(workouts[i])];
        RenderWorkoutMarker(workouts[i]);
        i := i + 1;
      }
      assert workouts[..i] == workouts;
    }

    /** `_renderAndSave`: push the workout, then its marker. */
    method RenderAndSave(w: Workout)
      modifies this
      ensures Model() == Saved(old(Model()), w)
    {
      workouts := workouts + [w];
      RenderWorkoutMarker(w);
    }

    /** `_newWorkout`: validate the form and save the workout it yields. */
    method NewWorkout(input: FormInput, coords: Coords, id: string, date: Date) returns (w: Option<Workout>)
      modifies this
      ensures w == WorkoutObj(input, coords, id, date)
      ensures Model() == Created(old(Model()), input, coords, id, date)
    {
      w := WorkoutObj(input, coords, id, date);
      if w.Some? {
        RenderAndSave(w.value);
      }
    }

    /** `_submitEdit` for the workout with `id`, as written. */
    method SubmitEdit(id: string, input: FormInput, freshId: string, date: Date) returns (edited: Option<Workout>)
      modifies this
      ensures edited == Replacement(old(Model()), id, input, freshId, date)
      ensures Model() == Edited(old(Model()), id, input, freshId, date)
    {
      edited := None;
      var i := FindIndex(workouts, id);
      if i < 0 {
        return;
      }
      var w := WorkoutObj(input, workouts[i].coords, freshId, date);
      if w.None? {
        return;
      }
      edited := Some(w.value.(id := workouts[i].id));
      assert edited == Replacement(old(Model()), id, input, freshId, date);
      workouts := workouts[..i] + workouts[i + 1..];
      assert workouts + [edited.value] == MovedToEnd(old(workouts), i, edited.value);
      RenderAndSave(edited.value);
    }

    /** `_deleteWorkout` for the workout with `id`. */
    method DeleteWorkout(id: string) returns (deleted: bool)
      modifies this
      ensures deleted <==> 0 <= FindIndex(old(workouts), id) < |old(mapLayers)|
      ensures Model() == Deleted(old(Model()), id)
    {
      var i := FindIndex(workouts, id);
      deleted := 0 <= i < |mapLayers|;
      if deleted {
        workouts := workouts[..i] + workouts[i + 1..];
        mapLayers := mapLayers[..i] + mapLayers[i + 1..];
      }
    }

    /** `_deleteAll`: both lists emptied. */
    method DeleteAll()
      modifies this
      ensures workouts == [] && mapLayers == []
      ensures Aligned(Model())
    {
      workouts, mapLayers := [], [];
    }

    /** `_sortBy`: a sorted copy; `#workouts` keeps its order. */
    method SortBy(f: Field, ascending: bool) returns (sorted: seq<Workout>)
      ensures sorted == SortedCopy(workouts, Comparator(f, ascending))
      ensures multiset(sorted) == multiset(workouts)
      ensures (forall w :: w in workouts ==> Key(w, f).Some?) ==>
        forall i, j :: 0 <= i < j < |sorted| ==>
          if ascending then !Less(Key(sorted[j], f), Key(sorted[i], f))
          else !Less(Key(sorted[i], f), Key(sorted[j], f))
    {
      sorted := SortedCopy(workouts, Comparator(f, ascending));
      if forall w :: w in workouts ==> Key(w, f).Some? {
        SortedByField(workouts, f, ascending);
      }
    }
  }
}
