/** The application's entity records and enumerations (src/types/index.ts). */
module Types {
  import opened Common

  /** A JavaScript `Date`, as milliseconds of local wall-clock time. */
  type Date = int

  const MsPerDay: int := 86_400_000

  /** The calendar day a date falls on: what `toDateString` and date-fns `isSameDay` compare. */
  function DayOf(d: Date): int {
    d / MsPerDay
  }

  predicate SameDay(a: Date, b: Date) {
    DayOf(a) == DayOf(b)
  }

  /** The two hard-coded user identities ('João' and 'Myrrena'). */
  datatype User = Joao | Myrrena

  datatype Theme = Light | Dark

  datatype TaskStatus = Pendente | EmAndamento | Concluida

  datatype TaskPriority = Alta | Media | Baixa

  datatype TransactionType = Entrada | Saida

  datatype TransactionCategory =
    | Salario | Freelance | Investimentos | Alimentacao | Transporte
    | Moradia | Lazer | Saude | Educacao | Outros

  datatype MealType = Cafe | Almoco | Jantar | Lanche

  datatype FitnessGoalKind = WeightGoal | CaloriesGoal | WorkoutsGoal

  datatype UserProfile = UserProfile(name: User, email: string, avatar: string, color: string)

  datatype Task = Task(
    id: string,
    title: string,
    description: Option<string>,
    status: TaskStatus,
    priority: TaskPriority,
    dueDate: Date,
    createdAt: Date,
    user: User)

  datatype Transaction = Transaction(
    id: string,
    description: string,
    amount: real,
    kind: TransactionType,
    category: TransactionCategory,
    date: Date,
    accountId: string,
    user: User)

  datatype Account = Account(id: string, name: string, bank: string, balance: real, color: string, user: User)

  datatype FinancialGoal = FinancialGoal(
    id: string,
    name: string,
    targetAmount: real,
    currentAmount: real,
    deadline: Date,
    color: string,
    user: User)

  datatype Meal = Meal(
    id: string,
    name: string,
    calories: int,
    protein: int,
    carbs: int,
    fat: int,
    date: Date,
    mealType: MealType,
    user: User)

  datatype Exercise = Exercise(id: string, name: string, sets: int, reps: int, weight: Option<real>)

  datatype Workout = Workout(id: string, name: string, exercises: seq<Exercise>, date: Date, duration: int, user: User)

  datatype BodyMeasurement = BodyMeasurement(
    id: string,
    date: Date,
    weight: real,
    bodyFat: Option<real>,
    chest: Option<real>,
    waist: Option<real>,
    arms: Option<real>,
    legs: Option<real>,
    user: User)

  datatype FitnessGoal = FitnessGoal(id: string, kind: FitnessGoalKind, target: real, current: real, unit: string, user: User)

  datatype Subject = Subject(id: string, name: string, color: string, icon: string, totalHours: real, user: User)

  datatype StudySession = StudySession(
    id: string,
    subjectId: string,
    duration: int,
    date: Date,
    description: Option<string>,
    user: User)
}
