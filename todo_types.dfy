/** The todo value types: the validation schemas for creating a todo and for
    list filter parameters, and the status and due-date helpers. Dates are
    integer milliseconds since the epoch, and the current time is a parameter. */
module TodoTypes {
  import opened Common

  datatype Priority = Low | Medium | High
  datatype Status = Pending | InProgress | Completed | Cancelled
  datatype Category = Work | Personal | Shopping | Health | Education | Finance | Other

  /** A todo's `due_date`: null, the empty string (also falsy), or a date. */
  datatype DueDate = NoDueDate | EmptyDueDate | DueAt(ms: int)

  /** `1000 * 3600 * 24` */
  const MsPerDay: int := 86400000

  const TitleMin: nat := 1
  const TitleMax: nat := 100
  const DescriptionMax: nat := 500
  const DefaultLimit: int := 20
  const LimitMin: int := 1
  const LimitMax: int := 100
  const DueSoonDefaultDays: int := 3

  // ---------------------------------------------------------------------------
  // createTodoSchema

  predicate TitleValid(title: string) {
    TitleMin <= |title| <= TitleMax
  }

  predicate DescriptionValid(description: Option<string>) {
    description.None? || |description.value| <= DescriptionMax
  }

  /** The form data before parsing; absent fields are None. */
  datatype CreateTodoInput = CreateTodoInput(
    title: string,
    description: Option<string>,
    priority: Option<Priority>,
    category: Option<Category>,
    dueDate: Option<string>,
    reminder: Option<bool>,
    reminderDate: Option<string>)

  /** The parsed data, with the defaults filled in. */
  datatype CreateTodoData = CreateTodoData(
    title: string,
    description: Option<string>,
    priority: Priority,
    category: Category,
    dueDate: Option<string>,
    reminder: bool,
    reminderDate: Option<string>)

  function TitleIssues(title: string): seq<Issue> {
    (if |title| < TitleMin then [Issue("title", "Title is required")] else []) +
    (if |title| > TitleMax then [Issue("title", "Title must be less than 100 characters")] else [])
  }

  function DescriptionIssues(description: Option<string>): seq<Issue> {
    if description.Some? && |description.value| > DescriptionMax
    then [Issue("description", "Description must be less than 500 characters")]
    else []
  }

  /** `createTodoSchema.safeParse`: every failing rule is reported. */
  function ParseCreateTodo(input: CreateTodoInput): Result<CreateTodoData, seq<Issue>> {
    var issues := TitleIssues(input.title) + DescriptionIssues(input.description);
    if issues != [] then Err(issues)
    else Ok(CreateTodoData(
      input.title,
      input.description,
      input.priority.GetOr(Medium),
      input.category.GetOr(Personal),
      input.dueDate,
      input.reminder.GetOr(false),
      input.reminderDate))
  }

  /** The schema accepts exactly the titles of 1 to 100 characters and the
      descriptions that are absent or at most 500 characters long. */
  lemma CreateTodoAcceptsIff(input: CreateTodoInput)
    ensures ParseCreateTodo(input).Ok? <==> TitleValid(input.title) && DescriptionValid(input.description)
  {
  }

  /** Every rejection names the fields at fault, and only those. */
  lemma CreateTodoIssuesBlameFields(input: CreateTodoInput)
    ensures ParseCreateTodo(input).Err? ==>
      (!TitleValid(input.title) <==> exists i :: i in ParseCreateTodo(input).error && i.field == "title")
    ensures ParseCreateTodo(input).Err? ==>
      (!DescriptionValid(input.description) <==>
        exists i :: i in ParseCreateTodo(input).error && i.field == "description")
  {
    var t := TitleIssues(input.title);
    var d := DescriptionIssues(input.description);
    assert forall i :: i in t ==> i.field == "title";
    assert forall i :: i in d ==> i.field == "description";
    if !TitleValid(input.title) {
      assert t[0] in t + d;
    }
    if !DescriptionValid(input.description) {
      assert d[0] in t + d;
    }
  }

  /** Parsing keeps the given fields and fills the absent ones with medium
      priority, the personal category and no reminder. */
  lemma CreateTodoDefaults(input: CreateTodoInput)
    requires ParseCreateTodo(input).Ok?
    ensures ParseCreateTodo(input).value.title == input.title
    ensures ParseCreateTodo(input).value.description == input.description
    ensures input.priority.None? ==> ParseCreateTodo(input).value.priority == Medium
    ensures input.category.None? ==> ParseCreateTodo(input).value.category == Personal
    ensures input.reminder.None? ==> !ParseCreateTodo(input).value.reminder
    ensures input.priority.Some? ==> ParseCreateTodo(input).value.priority == input.priority.value
    ensures input.category.Some? ==> ParseCreateTodo(input).value.category == input.category.value
    ensures input.reminder.Some? ==> ParseCreateTodo(input).value.reminder == input.reminder.value
    ensures ParseCreateTodo(input).value.dueDate == input.dueDate
    ensures ParseCreateTodo(input).value.reminderDate == input.reminderDate
  {
  }

  // ---------------------------------------------------------------------------
  // todoFilterSchema

  datatype SortKey = CreatedAt | UpdatedAt | DueDateKey | PriorityKey | TitleKey
  datatype SortOrder = Asc | Desc

  datatype FilterInput = FilterInput(
    status: Option<seq<Status>>,
    priority: Option<seq<Priority>>,
    category: Option<seq<Category>>,
    search: Option<string>,
    sortBy: Option<SortKey>,
    sortOrder: Option<SortOrder>,
    limit: Option<int>,
    offset: Option<int>)

  datatype FilterParams = FilterParams(
    status: Option<seq<Status>>,
    priority: Option<seq<Priority>>,
    category: Option<seq<Category>>,
    search: Option<string>,
    sortBy: SortKey,
    sortOrder: SortOrder,
    limit: int,
    offset: int)

  function LimitIssues(limit: Option<int>): seq<Issue> {
    if limit.None? then []
    else (if limit.value < LimitMin then [Issue("limit", "Number must be greater than or equal to 1")] else []) +
         (if limit.value > LimitMax then [Issue("limit", "Number must be less than or equal to 100")] else [])
  }

  function OffsetIssues(offset: Option<int>): seq<Issue> {
    if offset.Some? && offset.value < 0 then [Issue("offset", "Number must be greater than or equal to 0")] else []
  }

  /** `todoFilterSchema.safeParse` */
  function ParseTodoFilter(input: FilterInput): Result<FilterParams, seq<Issue>> {
    var issues := LimitIssues(input.limit) + OffsetIssues(input.offset);
    if issues != [] then Err(issues)
    else Ok(FilterParams(
      input.status, input.priority, input.category, input.search,
      input.sortBy.GetOr(CreatedAt),
      input.sortOrder.GetOr(Desc),
      input.limit.GetOr(DefaultLimit),
      input.offset.GetOr(0)))
  }

  /** Accepted filters page within bounds: a limit of 1 to 100 (20 by
      default), a non-negative offset (0 by default), newest first by
      creation date unless told otherwise. */
  lemma TodoFilterBoundsAndDefaults(input: FilterInput)
    ensures ParseTodoFilter(input).Ok? <==>
      (input.limit.None? || LimitMin <= input.limit.value <= LimitMax) &&
      (input.offset.None? || input.offset.value >= 0)
    ensures ParseTodoFilter(input).Ok? ==>
      var p := ParseTodoFilter(input).value;
      LimitMin <= p.limit <= LimitMax && p.offset >= 0 &&
      (input.limit.None? ==> p.limit == DefaultLimit) &&
      (input.offset.None? ==> p.offset == 0) &&
      (input.sortBy.None? ==> p.sortBy == CreatedAt) &&
      (input.sortOrder.None? ==> p.sortOrder == Desc)
  {
  }

  // ---------------------------------------------------------------------------
  // Status and due-date helpers

  /** `Math.ceil(a / d)` for a positive divisor; Dafny's `/` floors here. */
  function CeilDiv(a: int, d: int): (q: int)
    requires d > 0
  {
    -((-a) / d)
  }

  /** The ceiling is the least integer whose multiple of `d` reaches `a`. */
  lemma CeilDivBounds(a: int, d: int)
    requires d > 0
    ensures (CeilDiv(a, d) - 1) * d < a <= CeilDiv(a, d) * d
  {
    var q := (-a) / d;
    var r := (-a) % d;
    assert -a == q * d + r && 0 <= r < d;
    assert CeilDiv(a, d) * d == -(q * d);
    assert (CeilDiv(a, d) - 1) * d == -(q * d) - d;
  }

  /** `isOverdue`: a present, non-empty due date earlier than now. */
  predicate IsOverdue(due: DueDate, now: int) {
    match due
    case DueAt(ms) => ms < now
    case _ => false
  }

  /** `getTodoStatus` */
  function TodoStatus(completed: bool, due: DueDate, now: int): Status {
    if completed then Completed
    else if due.DueAt? && due.ms < now then Pending
    else InProgress
  }

  /** `getDaysUntilDue`: null without a due date, else whole days rounded up. */
  function DaysUntilDue(due: DueDate, now: int): Option<int> {
    match due
    case DueAt(ms) => Some(CeilDiv(ms - now, MsPerDay))
    case _ => None
  }

  /** `isDueSoon(dueDate, days = 3)` */
  predicate IsDueSoon(due: DueDate, now: int, days: int := DueSoonDefaultDays) {
    match due
    case DueAt(ms) =>
      var daysDiff := CeilDiv(ms - now, MsPerDay);
      daysDiff >= 0 && daysDiff <= days
    case _ => false
  }

  /** The status is never "cancelled"; a completed todo is "completed"
      whatever its date, and an open one is "pending" exactly when overdue. */
  lemma StatusRules(completed: bool, due: DueDate, now: int)
    ensures TodoStatus(completed, due, now) != Cancelled
    ensures completed ==> TodoStatus(completed, due, now) == Completed
    ensures !completed ==> (TodoStatus(completed, due, now) == Pending <==> IsOverdue(due, now))
    ensures !completed ==> (TodoStatus(completed, due, now) == InProgress <==> !IsOverdue(due, now))
  {
  }

  /** Without a date nothing is overdue or due soon and there is no day count. */
  lemma NoDateNoDeadline(due: DueDate, now: int, days: int)
    requires !due.DueAt?
    ensures !IsOverdue(due, now) && !IsDueSoon(due, now, days) && DaysUntilDue(due, now) == None
  {
  }

  /** The day count is null exactly without a date, and otherwise is the
      number of whole days, rounded up, from now until the due date. */
  lemma DaysUntilDueMeaning(due: DueDate, now: int)
    ensures DaysUntilDue(due, now).None? <==> !due.DueAt?
    ensures due.DueAt? ==>
      var n := DaysUntilDue(due, now).value;
      (n - 1) * MsPerDay < due.ms - now <= n * MsPerDay
  {
    if due.DueAt? {
      CeilDivBounds(due.ms - now, MsPerDay);
    }
  }

  /** Due soon means the day count lies between 0 and the horizon. */
  lemma DueSoonIff(due: DueDate, now: int, days: int)
    ensures IsDueSoon(due, now, days) <==>
      DaysUntilDue(due, now).Some? && 0 <= DaysUntilDue(due, now).value <= days
  {
  }

  /** A date in the last day is both overdue and due soon: its day count
      rounds up to 0. */
  lemma JustMissedIsOverdueAndDueSoon(ms: int, now: int, days: int)
    requires now - MsPerDay < ms < now && days >= 0
    ensures IsOverdue(DueAt(ms), now)
    ensures DaysUntilDue(DueAt(ms), now) == Some(0)
    ensures IsDueSoon(DueAt(ms), now, days)
    ensures IsDueSoon(DueAt(ms), now)
  {
    CeilDivBounds(ms - now, MsPerDay);
  }

  /** A date a full day or more in the past is never due soon. */
  lemma LongOverdueNotDueSoon(ms: int, now: int, days: int)
    requires ms <= now - MsPerDay
    ensures DaysUntilDue(DueAt(ms), now).value < 0
    ensures !IsDueSoon(DueAt(ms), now, days)
  {
    CeilDivBounds(ms - now, MsPerDay);
  }

  /** With the default horizon, a date up to three days ahead is due soon and
      one more than three days ahead is not. */
  lemma DefaultHorizon(ms: int, now: int)
    ensures now <= ms <= now + 3 * MsPerDay ==> IsDueSoon(DueAt(ms), now)
    ensures ms > now + 3 * MsPerDay ==> !IsDueSoon(DueAt(ms), now)
  {
    CeilDivBounds(ms - now, MsPerDay);
  }
}
