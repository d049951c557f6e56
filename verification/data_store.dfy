/** The application-data store (src/stores/dataStore.ts): ten entity collections, the
    add / update / delete mutators the page handlers call, and the per-user readers.

    Every mutator in the source calls `set(state => ({ xs: ... }))`, which merges a record
    holding one collection over the state; here each collection is a field of `Store` and
    each mutator's frame names that field alone. */
module DataStore {
  import opened Common
  import opened Types

  // ---------------------------------------------------------------------------
  // The collection operations, once for every entity type
  // ---------------------------------------------------------------------------

  /** The test `x => idOf(x) !== id` of the delete operations. */
  function LacksId<T>(idOf: T -> string, id: string): T -> bool {
    x => idOf(x) != id
  }

  /** The test `x => idOf(x) === id`. */
  function HasId<T>(idOf: T -> string, id: string): T -> bool {
    x => idOf(x) == id
  }

  /** The test `x => userOf(x) === user` of the `getXByUser` readers. */
  function OwnedBy<T>(userOf: T -> User, user: User): T -> bool {
    x => userOf(x) == user
  }

  /** `xs.filter(x => x.id !== id)`. */
  function WithoutId<T(!new)>(s: seq<T>, idOf: T -> string, id: string): (r: seq<T>)
    ensures forall x :: x in r <==> x in s && idOf(x) != id
  {
    Filter(s, LacksId(idOf, id))
  }

  /** `xs.map(x => x.id === id ? { ...x, ...patch } : x)`. */
  function UpdateId<T, P>(s: seq<T>, idOf: T -> string, id: string, merge: (T, P) -> T, patch: P): (r: seq<T>)
    ensures |r| == |s|
    ensures forall i :: 0 <= i < |s| && idOf(s[i]) != id ==> r[i] == s[i]
    ensures forall i :: 0 <= i < |s| && idOf(s[i]) == id ==> r[i] == merge(s[i], patch)
  {
    seq(|s|, i requires 0 <= i < |s| => if idOf(s[i]) == id then merge(s[i], patch) else s[i])
  }

  /** `xs.filter(x => x.user === user)`. */
  function ByUser<T(!new)>(s: seq<T>, userOf: T -> User, user: User): (r: seq<T>)
    ensures forall x :: x in r <==> x in s && userOf(x) == user
  {
    Filter(s, OwnedBy(userOf, user))
  }

  /** Adding a record and reading the owner's records back gives the earlier reading with the
      new record at its end; every other user's reading is unchanged. */
  lemma AddThenByUser<T(!new)>(s: seq<T>, x: T, userOf: T -> User, user: User)
    ensures ByUser(s + [x], userOf, user) == ByUser(s, userOf, user) + (if userOf(x) == user then [x] else [])
  {
    FilterAppend(s, [x], OwnedBy(userOf, user));
    assert Filter([x], OwnedBy(userOf, user)) == (if userOf(x) == user then [x] else []) + Filter([], OwnedBy(userOf, user));
  }

  /** Deleting an id removes exactly the records carrying it: the length drops by their number. */
  lemma DeleteLength<T(!new)>(s: seq<T>, idOf: T -> string, id: string)
    ensures |WithoutId(s, idOf, id)| == |s| - |Filter(s, HasId(idOf, id))|
  {
    FilterComplement(s, HasId(idOf, id), LacksId(idOf, id));
  }

  /** With ids unique, deleting an existing id removes one record, and deleting an unknown
      id changes nothing. */
  lemma DeleteUniqueId<T(!new)>(s: seq<T>, idOf: T -> string, id: string)
    requires |Filter(s, HasId(idOf, id))| <= 1
    ensures (exists x :: x in s && idOf(x) == id) ==> |WithoutId(s, idOf, id)| == |s| - 1
    ensures (forall x :: x in s ==> idOf(x) != id) ==> WithoutId(s, idOf, id) == s
  {
    DeleteLength(s, idOf, id);
    if exists x :: x in s && idOf(x) == id {
      var x :| x in s && idOf(x) == id;
      assert x in Filter(s, HasId(idOf, id));
    } else {
      FilterAllPass(s, LacksId(idOf, id));
    }
  }

  /** Deleting the id a record was just added under gives back the collection as it was,
      provided the id was fresh. */
  lemma DeleteAfterAdd<T(!new)>(s: seq<T>, x: T, idOf: T -> string, id: string)
    requires idOf(x) == id
    requires forall y :: y in s ==> idOf(y) != id
    ensures WithoutId(s + [x], idOf, id) == s
  {
    FilterAppend(s, [x], LacksId(idOf, id));
    FilterAllPass(s, LacksId(idOf, id));
    assert Filter([x], LacksId(idOf, id)) == [] + Filter([], LacksId(idOf, id));
  }

  /** An update with an id no record carries leaves the collection unchanged. */
  lemma UpdateUnknownId<T, P>(s: seq<T>, idOf: T -> string, id: string, merge: (T, P) -> T, patch: P)
    requires forall i :: 0 <= i < |s| ==> idOf(s[i]) != id
    ensures UpdateId(s, idOf, id, merge, patch) == s
  {
  }

  lemma UpdateIdCons<T, P>(x: T, s: seq<T>, idOf: T -> string, id: string, merge: (T, P) -> T, patch: P)
    ensures UpdateId([x] + s, idOf, id, merge, patch)
         == [if idOf(x) == id then merge(x, patch) else x] + UpdateId(s, idOf, id, merge, patch)
  {
  }

  /** An update that leaves the owner alone commutes with the per-user reading: reading the
      owner's records after the update is updating the owner's records. */
  lemma {:induction false} UpdateThenByUser<T(!new), P>(
    s: seq<T>, idOf: T -> string, id: string, merge: (T, P) -> T, patch: P, userOf: T -> User, user: User)
    requires forall x :: userOf(merge(x, patch)) == userOf(x)
    ensures ByUser(UpdateId(s, idOf, id, merge, patch), userOf, user)
         == UpdateId(ByUser(s, userOf, user), idOf, id, merge, patch)
  {
    if s != [] {
      var x, rest := s[0], s[1..];
      var x' := if idOf(x) == id then merge(x, patch) else x;
      assert s == [x] + rest;
      UpdateIdCons(x, rest, idOf, id, merge, patch);
      var u := UpdateId(s, idOf, id, merge, patch);
      assert u == [x'] + UpdateId(rest, idOf, id, merge, patch);
      assert u[1..] == UpdateId(rest, idOf, id, merge, patch);
      UpdateThenByUser(rest, idOf, id, merge, patch, userOf, user);
      if userOf(x) == user {
        assert ByUser(s, userOf, user) == [x] + ByUser(rest, userOf, user);
        UpdateIdCons(x, ByUser(rest, userOf, user), idOf, id, merge, patch);
      }
    }
  }

  /** An update that keeps ids, followed by a delete of the same id, is just the delete. */
  lemma {:induction false} DeleteAfterUpdate<T(!new), P>(
    s: seq<T>, idOf: T -> string, id: string, merge: (T, P) -> T, patch: P)
    requires forall x :: idOf(merge(x, patch)) == idOf(x)
    ensures WithoutId(UpdateId(s, idOf, id, merge, patch), idOf, id) == WithoutId(s, idOf, id)
  {
    if s != [] {
      var u := UpdateId(s, idOf, id, merge, patch);
      assert u[1..] == UpdateId(s[1..], idOf, id, merge, patch);
      DeleteAfterUpdate(s[1..], idOf, id, merge, patch);
    }
  }

  // ---------------------------------------------------------------------------
  // Partial records (`Partial<Task>`, `Partial<Transaction>`) and their merge
  // ---------------------------------------------------------------------------

  function Or<T>(o: Option<T>, default: T): T {
    match o
    case Some(v) => v
    case None => default
  }

  /** A `Partial<Task>`: each present field overrides the record's. */
  datatype TaskPatch = TaskPatch(
    id: Option<string>,
    title: Option<string>,
    description: Option<string>,
    status: Option<TaskStatus>,
    priority: Option<TaskPriority>,
    dueDate: Option<Date>,
    createdAt: Option<Date>,
    user: Option<User>)

  const NoTaskChange := TaskPatch(None, None, None, None, None, None, None, None)

  /** `{ ...t, ...patch }`. */
  function MergeTask(t: Task, p: TaskPatch): (r: Task)
    ensures r.id == (if p.id.Some? then p.id.value else t.id)
    ensures r.title == (if p.title.Some? then p.title.value else t.title)
    ensures p.description.Some? ==> r.description == p.description
    ensures p.description.None? ==> r.description == t.description
    ensures r.status == (if p.status.Some? then p.status.value else t.status)
    ensures r.priority == (if p.priority.Some? then p.priority.value else t.priority)
    ensures r.dueDate == (if p.dueDate.Some? then p.dueDate.value else t.dueDate)
    ensures r.createdAt == (if p.createdAt.Some? then p.createdAt.value else t.createdAt)
    ensures r.user == (if p.user.Some? then p.user.value else t.user)
  {
    Task(Or(p.id, t.id), Or(p.title, t.title),
         if p.description.Some? then p.description else t.description,
         Or(p.status, t.status), Or(p.priority, t.priority), Or(p.dueDate, t.dueDate),
         Or(p.createdAt, t.createdAt), Or(p.user, t.user))
  }

  /** A `Partial<Transaction>`. */
  datatype TransactionPatch = TransactionPatch(
    id: Option<string>,
    description: Option<string>,
    amount: Option<real>,
    kind: Option<TransactionType>,
    category: Option<TransactionCategory>,
    date: Option<Date>,
    accountId: Option<string>,
    user: Option<User>)

  /** `{ ...t, ...patch }`. */
  function MergeTransaction(t: Transaction, p: TransactionPatch): (r: Transaction)
    ensures r.id == (if p.id.Some? then p.id.value else t.id)
    ensures r.description == (if p.description.Some? then p.description.value else t.description)
    ensures r.amount == (if p.amount.Some? then p.amount.value else t.amount)
    ensures r.kind == (if p.kind.Some? then p.kind.value else t.kind)
    ensures r.category == (if p.category.Some? then p.category.value else t.category)
    ensures r.date == (if p.date.Some? then p.date.value else t.date)
    ensures r.accountId == (if p.accountId.Some? then p.accountId.value else t.accountId)
    ensures r.user == (if p.user.Some? then p.user.value else t.user)
  {
    Transaction(Or(p.id, t.id), Or(p.description, t.description), Or(p.amount, t.amount),
                Or(p.kind, t.kind), Or(p.category, t.category), Or(p.date, t.date),
                Or(p.accountId, t.accountId), Or(p.user, t.user))
  }

  lemma MergeNothing(t: Task)
    ensures MergeTask(t, NoTaskChange) == t
  {
  }

  // Field selectors, passed to the collection operations above.
  function TaskId(t: Task): string { t.id }
  function TaskUser(t: Task): User { t.user }
  function TransactionId(t: Transaction): string { t.id }
  function TransactionUser(t: Transaction): User { t.user }
  function AccountUser(a: Account): User { a.user }
  function FinancialGoalUser(g: FinancialGoal): User { g.user }
  function MealId(m: Meal): string { m.id }
  function MealUser(m: Meal): User { m.user }
  function WorkoutId(w: Workout): string { w.id }
  function WorkoutUser(w: Workout): User { w.user }
  function MeasurementId(m: BodyMeasurement): string { m.id }
  function MeasurementUser(m: BodyMeasurement): User { m.user }
  function FitnessGoalUser(g: FitnessGoal): User { g.user }
  function SubjectUser(s: Subject): User { s.user }
  function StudySessionId(s: StudySession): string { s.id }
  function StudySessionUser(s: StudySession): User { s.user }

  /** The test of `getMealsByDate`: owned by `user` and on the calendar day of `date`. */
  function OwnedOnDay(user: User, date: Date): Meal -> bool {
    (m: Meal) => m.user == user && SameDay(m.date, date)
  }

  function MealOnDay(date: Date): Meal -> bool {
    (m: Meal) => SameDay(m.date, date)
  }

  // ---------------------------------------------------------------------------
  // The store
  // ---------------------------------------------------------------------------

  /** `useDataStore`'s state. The fresh ids (`Math.random().toString(36).substr(2, 9)`) and
      creation times (`new Date()`) are parameters of the add operations: the source
      generates them and does not check them for uniqueness. */
  class Store {
    var tasks: seq<Task>
    var transactions: seq<Transaction>
    var accounts: seq<Account>
    var financialGoals: seq<FinancialGoal>
    var meals: seq<Meal>
    var workouts: seq<Workout>
    var measurements: seq<BodyMeasurement>
    var fitnessGoals: seq<FitnessGoal>
    var subjects: seq<Subject>
    var studySessions: seq<StudySession>

    /** The store starts from the seed collections (the mock data). */
    constructor (
      tasks: seq<Task>, transactions: seq<Transaction>, accounts: seq<Account>,
      financialGoals: seq<FinancialGoal>, meals: seq<Meal>, workouts: seq<Workout>,
      measurements: seq<BodyMeasurement>, fitnessGoals: seq<FitnessGoal>,
      subjects: seq<Subject>, studySessions: seq<StudySession>)
      ensures this.tasks == tasks && this.transactions == transactions
      ensures this.accounts == accounts && this.financialGoals == financialGoals
      ensures this.meals == meals && this.workouts == workouts
      ensures this.measurements == measurements && this.fitnessGoals == fitnessGoals
      ensures this.subjects == subjects && this.studySessions == studySessions
    {
      this.tasks := tasks;
      this.transactions := transactions;
      this.accounts := accounts;
      this.financialGoals := financialGoals;
      this.meals := meals;
      this.workouts := workouts;
      this.measurements := measurements;
      this.fitnessGoals := fitnessGoals;
      this.subjects := subjects;
      this.studySessions := studySessions;
    }

    // --- tasks -----------------------------------------------------------------

    /** Appends `task` with the fresh id and creation time replacing whatever the input had. */
    method AddTask(task: Task, id: string, now: Date)
      modifies this`tasks
      ensures tasks == old(tasks) + [task.(id := id, createdAt := now)]
      ensures |tasks| == |old(tasks)| + 1 && tasks[..|old(tasks)|] == old(tasks)
    {
      tasks := tasks + [task.(id := id, createdAt := now)];
    }

    method UpdateTask(id: string, patch: TaskPatch)
      modifies this`tasks
      ensures tasks == UpdateId(old(tasks), TaskId, id, MergeTask, patch)
      ensures |tasks| == |old(tasks)|
      ensures forall i :: 0 <= i < |tasks| && old(tasks)[i].id != id ==> tasks[i] == old(tasks)[i]
      ensures forall i :: 0 <= i < |tasks| && old(tasks)[i].id == id ==> tasks[i] == MergeTask(old(tasks)[i], patch)
    {
      tasks := UpdateId(tasks, TaskId, id, MergeTask, patch);
    }

    method DeleteTask(id: string)
      modifies this`tasks
      ensures tasks == WithoutId(old(tasks), TaskId, id)
      ensures forall t :: t in tasks <==> t in old(tasks) && t.id != id
    {
      tasks := WithoutId(tasks, TaskId, id);
    }

    /** `getTasksByUser`. */
    function TasksByUser(user: User): (r: seq<Task>)
      reads this
      ensures forall t :: t in r <==> t in tasks && t.user == user
    {
      ByUser(tasks, TaskUser, user)
    }

    // --- transactions ----------------------------------------------------------

    method AddTransaction(transaction: Transaction, id: string)
      modifies this`transactions
      ensures transactions == old(transactions) + [transaction.(id := id)]
    {
      transactions := transactions + [transaction.(id := id)];
    }

    method UpdateTransaction(id: string, patch: TransactionPatch)
      modifies this`transactions
      ensures transactions == UpdateId(old(transactions), TransactionId, id, MergeTransaction, patch)
      ensures |transactions| == |old(transactions)|
    {
      transactions := UpdateId(transactions, TransactionId, id, MergeTransaction, patch);
    }

    method DeleteTransaction(id: string)
      modifies this`transactions
      ensures transactions == WithoutId(old(transactions), TransactionId, id)
      ensures forall t :: t in transactions <==> t in old(transactions) && t.id != id
    {
      transactions := WithoutId(transactions, TransactionId, id);
    }

    function TransactionsByUser(user: User): (r: seq<Transaction>)
      reads this
      ensures forall t :: t in r <==> t in transactions && t.user == user
    {
      ByUser(transactions, TransactionUser, user)
    }

    // --- read-only collections -------------------------------------------------

    function AccountsByUser(user: User): (r: seq<Account>)
      reads this
      ensures forall a :: a in r <==> a in accounts && a.user == user
    {
      ByUser(accounts, AccountUser, user)
    }

    function FinancialGoalsByUser(user: User): (r: seq<FinancialGoal>)
      reads this
      ensures forall g :: g in r <==> g in financialGoals && g.user == user
    {
      ByUser(financialGoals, FinancialGoalUser, user)
    }

    function FitnessGoalsByUser(user: User): (r: seq<FitnessGoal>)
      reads this
      ensures forall g :: g in r <==> g in fitnessGoals && g.user == user
    {
      ByUser(fitnessGoals, FitnessGoalUser, user)
    }

    function SubjectsByUser(user: User): (r: seq<Subject>)
      reads this
      ensures forall s :: s in r <==> s in subjects && s.user == user
    {
      ByUser(subjects, SubjectUser, user)
    }

    // --- meals -----------------------------------------------------------------

    method AddMeal(meal: Meal, id: string)
      modifies this`meals
      ensures meals == old(meals) + [meal.(id := id)]
    {
      meals := meals + [meal.(id := id)];
    }

    method DeleteMeal(id: string)
      modifies this`meals
      ensures meals == WithoutId(old(meals), MealId, id)
      ensures forall m :: m in meals <==> m in old(meals) && m.id != id
    {
      meals := WithoutId(meals, MealId, id);
    }

    function MealsByUser(user: User): (r: seq<Meal>)
      reads this
      ensures forall m :: m in r <==> m in meals && m.user == user
    {
      ByUser(meals, MealUser, user)
    }

    /** `getMealsByDate`: the user's meals on the calendar day of `date`, in order. */
    function MealsByDate(user: User, date: Date): (r: seq<Meal>)
      reads this
      ensures forall m :: m in r <==> m in meals && m.user == user && DayOf(m.date) == DayOf(date)
      ensures r == Filter(MealsByUser(user), MealOnDay(date))
    {
      forall m: Meal
        ensures OwnedOnDay(user, date)(m) == (OwnedBy(MealUser, user)(m) && MealOnDay(date)(m))
      {
        assert OwnedBy(MealUser, user)(m) == (MealUser(m) == user);
      }
      FilterFilter(meals, OwnedBy(MealUser, user), MealOnDay(date), OwnedOnDay(user, date));
      Filter(meals, OwnedOnDay(user, date))
    }

    // --- workouts --------------------------------------------------------------

    method AddWorkout(workout: Workout, id: string)
      modifies this`workouts
      ensures workouts == old(workouts) + [workout.(id := id)]
    {
      workouts := workouts + [workout.(id := id)];
    }

    method DeleteWorkout(id: string)
      modifies this`workouts
      ensures workouts == WithoutId(old(workouts), WorkoutId, id)
      ensures forall w :: w in workouts <==> w in old(workouts) && w.id != id
    {
      workouts := WithoutId(workouts, WorkoutId, id);
    }

    function WorkoutsByUser(user: User): (r: seq<Workout>)
      reads this
      ensures forall w :: w in r <==> w in workouts && w.user == user
    {
      ByUser(workouts, WorkoutUser, user)
    }

    // --- measurements ----------------------------------------------------------

    method AddMeasurement(measurement: BodyMeasurement, id: string)
      modifies this`measurements
      ensures measurements == old(measurements) + [measurement.(id := id)]
    {
      measurements := measurements + [measurement.(id := id)];
    }

    method DeleteMeasurement(id: string)
      modifies this`measurements
      ensures measurements == WithoutId(old(measurements), MeasurementId, id)
      ensures forall m :: m in measurements <==> m in old(measurements) && m.id != id
    {
      measurements := WithoutId(measurements, MeasurementId, id);
    }

    function MeasurementsByUser(user: User): (r: seq<BodyMeasurement>)
      reads this
      ensures forall m :: m in r <==> m in measurements && m.user == user
    {
      ByUser(measurements, MeasurementUser, user)
    }

    // --- study sessions --------------------------------------------------------

    method AddStudySession(session: StudySession, id: string)
      modifies this`studySessions
      ensures studySessions == old(studySessions) + [session.(id := id)]
    {
      studySessions := studySessions + [session.(id := id)];
    }

    method DeleteStudySession(id: string)
      modifies this`studySessions
      ensures studySessions == WithoutId(old(studySessions), StudySessionId, id)
      ensures forall s :: s in studySessions <==> s in old(studySessions) && s.id != id
    {
      studySessions := WithoutId(studySessions, StudySessionId, id);
    }

    function StudySessionsByUser(user: User): (r: seq<StudySession>)
      reads this
      ensures forall s :: s in r <==> s in studySessions && s.user == user
    {
      ByUser(studySessions, StudySessionUser, user)
    }
  }

  /** The scenario of a user with no tasks: after adding one, the user's task list is exactly
      that task under its fresh id; deleting that id empties the list again. */
  method AddThenDeleteScenario(store: Store, task: Task, id: string, now: Date)
    requires store.TasksByUser(task.user) == []
    requires forall t :: t in store.tasks ==> t.id != id
    modifies store`tasks
    ensures store.TasksByUser(task.user) == []
    ensures store.tasks == old(store.tasks)
  {
    var before := store.tasks;
    store.AddTask(task, id, now);
    AddThenByUser(before, task.(id := id, createdAt := now), TaskUser, task.user);
    assert store.TasksByUser(task.user) == [task.(id := id, createdAt := now)];
    store.DeleteTask(id);
    DeleteAfterAdd(before, task.(id := id, createdAt := now), TaskId, id);
  }
}
