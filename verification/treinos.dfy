/** The workout page (src/pages/fitness/Treinos.tsx): the current user's workouts on a
    selected day, and a dialog form with a list of exercise rows whose fields are the
    strings typed in; submitting turns the named rows into exercises and adds the workout. */
module Treinos {
  import opened Common
  import opened Types
  import opened DataStore

  /** One exercise row of the form, as typed. */
  datatype ExerciseRow = ExerciseRow(name: string, sets: string, reps: string, weight: string)

  const BlankRow := ExerciseRow("", "", "", "")

  /** The fields `updateExercise` can set. */
  datatype Field = Name | Sets | Reps | Weight

  /** `{ ...row, [field]: value }`. */
  function SetField(row: ExerciseRow, f: Field, value: string): (r: ExerciseRow)
    ensures f == Name ==> r.name == value
    ensures f == Sets ==> r.sets == value
    ensures f == Reps ==> r.reps == value
    ensures f == Weight ==> r.weight == value
    ensures f != Name ==> r.name == row.name
    ensures f != Sets ==> r.sets == row.sets
    ensures f != Reps ==> r.reps == row.reps
    ensures f != Weight ==> r.weight == row.weight
  {
    match f
    case Name => row.(name := value)
    case Sets => row.(sets := value)
    case Reps => row.(reps := value)
    case Weight => row.(weight := value)
  }

  /** `rows.filter((_, i) => i !== index)`: without row `index`, or unchanged when there is
      no such row. */
  function RemoveAt(rows: seq<ExerciseRow>, index: int): (r: seq<ExerciseRow>)
    ensures 0 <= index < |rows| ==> |r| == |rows| - 1
    ensures 0 <= index < |rows| ==> forall j :: 0 <= j < |r| ==> r[j] == rows[if j < index then j else j + 1]
    ensures !(0 <= index < |rows|) ==> r == rows
  {
    if 0 <= index < |rows| then rows[..index] + rows[index + 1..] else rows
  }

  /** The page offers removal only below the first row (line 144), so the first row stays
      first and the form never runs out of rows. */
  lemma RemoveKeepsFirstRow(rows: seq<ExerciseRow>, index: int)
    requires rows != [] && index > 0
    ensures RemoveAt(rows, index) != [] && RemoveAt(rows, index)[0] == rows[0]
  {
  }

  // ---------------------------------------------------------------------------
  // Submitting
  // ---------------------------------------------------------------------------

  /** The row test `e => e.name` of line 73: a non-empty name. */
  function Named(): ExerciseRow -> bool {
    (e: ExerciseRow) => e.name != ""
  }

  /** The exercise one kept row becomes (lines 74-80): `id` is its fresh id; numbers that do
      not parse become 0; an empty weight is no weight. */
  function ExerciseOf(row: ExerciseRow, id: string, parseFloat: string -> real): (e: Exercise)
    ensures e.id == id && e.name == row.name
    ensures (forall i :: 0 <= i < |row.sets| ==> IsSpace(row.sets[i])) ==> e.sets == 0
    ensures (forall i :: 0 <= i < |row.reps| ==> IsSpace(row.reps[i])) ==> e.reps == 0
    ensures e.weight.None? <==> row.weight == ""
  {
    assert (forall i :: 0 <= i < |row.sets| ==> IsSpace(row.sets[i])) ==> ParseIntOrZero(row.sets) == 0 by {
      if forall i :: 0 <= i < |row.sets| ==> IsSpace(row.sets[i]) { BlankParsesToZero(row.sets); }
    }
    assert (forall i :: 0 <= i < |row.reps| ==> IsSpace(row.reps[i])) ==> ParseIntOrZero(row.reps) == 0 by {
      if forall i :: 0 <= i < |row.reps| ==> IsSpace(row.reps[i]) { BlankParsesToZero(row.reps); }
    }
    Exercise(id, row.name, ParseIntOrZero(row.sets), ParseIntOrZero(row.reps),
             if row.weight != "" then Some(parseFloat(row.weight)) else None)
  }

  /** The exercises of the submitted workout: the named rows in order, the `j`th of them
      with the fresh id `ids(j)`. */
  function Exercises(rows: seq<ExerciseRow>, ids: nat -> string, parseFloat: string -> real): (r: seq<Exercise>)
    ensures var kept := Filter(rows, Named());
            |r| == |kept| &&
            forall j :: 0 <= j < |r| ==>
              r[j].name == kept[j].name && r[j].name != "" && r[j].id == ids(j) &&
              r[j].sets == ParseIntOrZero(kept[j].sets) && r[j].reps == ParseIntOrZero(kept[j].reps) &&
              r[j].weight == (if kept[j].weight != "" then Some(parseFloat(kept[j].weight)) else None)
  {
    var kept := Filter(rows, Named());
    var r := MapIndexed(kept, 0, (e: ExerciseRow, i: nat) => ExerciseOf(e, ids(i), parseFloat));
    KeptRowsNamed(rows);
    ExercisesOfKept(kept, r, ids, parseFloat);
    r
  }

  lemma ExercisesOfKept(kept: seq<ExerciseRow>, r: seq<Exercise>, ids: nat -> string, parseFloat: string -> real)
    requires |r| == |kept|
    requires forall j :: 0 <= j < |kept| ==> r[j] == ExerciseOf(kept[j], ids(j), parseFloat)
    ensures forall j :: 0 <= j < |r| ==>
              r[j].name == kept[j].name && r[j].id == ids(j) &&
              r[j].sets == ParseIntOrZero(kept[j].sets) && r[j].reps == ParseIntOrZero(kept[j].reps) &&
              r[j].weight == (if kept[j].weight != "" then Some(parseFloat(kept[j].weight)) else None)
  {
  }

  lemma KeptRowsNamed(rows: seq<ExerciseRow>)
    ensures var kept := Filter(rows, Named());
            forall j :: 0 <= j < |kept| ==> kept[j].name != ""
  {
    var kept := Filter(rows, Named());
    forall j | 0 <= j < |kept|
      ensures kept[j].name != ""
    {
      assert kept[j] in kept;
      assert Named()(kept[j]);
    }
  }

  /** Blank-named rows are dropped and nothing else: the exercise count is the row count less
      the rows without a name; the blank form gives no exercise. */
  lemma ExerciseCount(rows: seq<ExerciseRow>, ids: nat -> string, parseFloat: string -> real)
    ensures |Exercises(rows, ids, parseFloat)| == |rows| - |Filter(rows, Unnamed())|
    ensures Exercises([BlankRow], ids, parseFloat) == []
  {
    FilterComplement(rows, Named(), Unnamed());
    assert Filter([BlankRow], Named()) == [] + Filter([], Named());
  }

  function Unnamed(): ExerciseRow -> bool {
    (e: ExerciseRow) => e.name == ""
  }

  // ---------------------------------------------------------------------------
  // The selected day
  // ---------------------------------------------------------------------------

  function WorkoutOnDay(day: Date): Workout -> bool {
    (w: Workout) => SameDay(w.date, day)
  }

  /** `selectedDateWorkouts` (lines 34-36). */
  function WorkoutsOnDay(workouts: seq<Workout>, day: Date): (r: seq<Workout>)
    ensures forall w :: w in r <==> w in workouts && DayOf(w.date) == DayOf(day)
  {
    Filter(workouts, WorkoutOnDay(day))
  }

  /** `hasWorkoutOnDay` (lines 90-92). */
  function HasWorkoutOnDay(workouts: seq<Workout>, day: Date): (b: bool)
    ensures b <==> exists w :: w in workouts && DayOf(w.date) == DayOf(day)
  {
    Any(workouts, WorkoutOnDay(day))
  }

  /** The calendar marks a day exactly when selecting it lists some workout. */
  lemma MarkedIffListed(workouts: seq<Workout>, day: Date)
    ensures HasWorkoutOnDay(workouts, day) <==> WorkoutsOnDay(workouts, day) != []
  {
    AnyIffFilterNonEmpty(workouts, WorkoutOnDay(day));
  }

  /** A workout added for a user marks its day in that user's calendar. */
  lemma AddedWorkoutMarksDay(workouts: seq<Workout>, w: Workout, user: User)
    requires w.user == user
    ensures HasWorkoutOnDay(ByUser(workouts + [w], WorkoutUser, user), w.date)
  {
    assert w in workouts + [w];
    assert w in ByUser(workouts + [w], WorkoutUser, user);
  }

  /** The workout `handleSubmit` adds (lines 68-82): the typed name, the named rows as
      exercises, the selected day, the duration as an integer (0 when it does not parse) and
      the current user, under the fresh id `id`. */
  function Submitted(id: string, name: string, rows: seq<ExerciseRow>, duration: string, date: Date,
                     user: User, ids: nat -> string, parseFloat: string -> real): (w: Workout)
    ensures w.id == id && w.user == user && w.date == date && w.name == name
    ensures |w.exercises| == |rows| - |Filter(rows, Unnamed())|
    ensures w.exercises == Exercises(rows, ids, parseFloat)
    ensures w.duration == ParseIntOrZero(duration)
  {
    ExerciseCount(rows, ids, parseFloat);
    Workout(id, name, Exercises(rows, ids, parseFloat), date, ParseIntOrZero(duration), user)
  }

  // ---------------------------------------------------------------------------
  // The page
  // ---------------------------------------------------------------------------

  class TreinosPage {
    const store: Store
    const currentUser: User
    var selectedDate: Date
    var dialogOpen: bool
    var name: string
    var duration: string
    var rows: seq<ExerciseRow>

    /** The first render (lines 24-43): today selected, the form empty with one blank row. */
    constructor (store: Store, currentUser: User, now: Date)
      ensures this.store == store && this.currentUser == currentUser
      ensures selectedDate == now && !dialogOpen
      ensures name == "" && duration == "" && rows == [BlankRow]
    {
      this.store := store;
      this.currentUser := currentUser;
      selectedDate := now;
      dialogOpen := false;
      name := "";
      duration := "";
      rows := [BlankRow];
    }

    /** The current user's workouts on the selected day. */
    function SelectedDayWorkouts(): (r: seq<Workout>)
      reads this, store
      ensures forall w :: w in r <==>
                w in store.workouts && w.user == currentUser && DayOf(w.date) == DayOf(selectedDate)
    {
      WorkoutsOnDay(store.WorkoutsByUser(currentUser), selectedDate)
    }

    /** `addExercise` (lines 45-50): one blank row more at the end. */
    method AddExercise()
      modifies this`rows
      ensures rows == old(rows) + [BlankRow]
    {
      rows := rows + [BlankRow];
    }

    /** `removeExercise` (lines 52-57); the page offers it for every row but the first. */
    method RemoveExercise(index: int)
      modifies this`rows
      ensures rows == RemoveAt(old(rows), index)
    {
      rows := RemoveAt(rows, index);
    }

    /** `updateExercise` (lines 59-63): copy the rows, replace row `index` by itself with one
        field set, and store the copy. */
    method UpdateExercise(index: nat, f: Field, value: string)
      requires index < |rows|
      modifies this`rows
      ensures rows == old(rows)[index := SetField(old(rows)[index], f, value)]
    {
      var source := rows;
      var copy := new ExerciseRow[|source|];
      var i := 0;
      while i < |source|
        invariant 0 <= i <= |source| == copy.Length
        invariant copy[..i] == source[..i]
      {
        copy[i] := source[i];
        i := i + 1;
      }
      assert copy[..] == source;
      copy[index] := SetField(copy[index], f, value);
      rows := copy[..];
    }

    /** `handleSubmit` (lines 65-88): add a workout of the current user on the selected day,
        with the named rows as exercises, then clear the form and close the dialog. */
    method HandleSubmit(id: string, ids: nat -> string, parseFloat: string -> real)
      modifies this`name, this`duration, this`rows, this`dialogOpen, store`workouts
      ensures store.workouts == old(store.workouts) +
                [Submitted(id, old(name), old(rows), old(duration), selectedDate, currentUser, ids, parseFloat)]
      ensures name == "" && duration == "" && rows == [BlankRow] && !dialogOpen
      ensures HasWorkoutOnDay(store.WorkoutsByUser(currentUser), selectedDate)
    {
      var w := Submitted(id, name, rows, duration, selectedDate, currentUser, ids, parseFloat);
      store.AddWorkout(w, id);
      name := "";
      duration := "";
      rows := [BlankRow];
      dialogOpen := false;
      assert store.workouts == old(store.workouts) + [w];
      AddedWorkoutMarksDay(old(store.workouts), w, currentUser);
    }
  }
}
