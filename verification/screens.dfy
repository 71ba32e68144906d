/**
 * The state the three screens keep and the callbacks that change it: the
 * router's flags, the calendar's year and month, and the task list's
 * add/edit dialog, which writes to the task store.
 */
module Screens {
  import opened Calendar
  import opened Lists
  import opened Tasks
  import opened DayQuery
  import opened CalendarGrid

  /** A Kotlin nullable value. */
  datatype Option<T> = None | Some(value: T)

  /** The screen the router's `when` composes. */
  datatype Screen = Welcome | CalendarPage | TaskListPage

  /** Kotlin's Char.isWhitespace: Java's whitespace characters and its space
      separators, the non-breaking ones included. */
  predicate IsWhitespace(c: char)
  {
    c == ' ' || '\t' <= c <= '\r' || '\U{1C}' <= c <= '\U{1F}' ||
    c == '\U{A0}' || c == '\U{1680}' || '\U{2000}' <= c <= '\U{200A}' ||
    c == '\U{2028}' || c == '\U{2029}' || c == '\U{202F}' || c == '\U{205F}' || c == '\U{3000}'
  }

  /** Kotlin's isBlank: empty, or whitespace only. */
  predicate IsBlank(s: string)
  {
    forall i :: 0 <= i < |s| ==> IsWhitespace(s[i])
  }

  /** `userName.ifBlank { "Guest" }`: the greeting never shows a blank name. */
  function DisplayName(userName: string): (shown: string)
    ensures !IsBlank(shown)
    ensures IsBlank(userName) ==> shown == "Guest"
    ensures !IsBlank(userName) ==> shown == userName
  {
    if IsBlank(userName) then
      assert !IsWhitespace("Guest"[0]);
      "Guest"
    else userName
  }

  /** AppScreen: three flags, the user's name and the selected date, read in
      priority order to pick the screen. */
  class AppScreen {
    const taskViewModel: TaskViewModel
    var userName: string
    var showWelcomeScreen: bool
    var showCalendar: bool
    var showTaskListScreen: bool
    var selectedDate: LocalDate

    /** `showTaskListScreen` starts false and is only ever assigned false.
        No screen depends on it (`Shown` never reads it): this only records
        that the flag is dead. */
    ghost predicate Valid()
      reads this
    {
      !showTaskListScreen
    }

    /** The `when`: the first set flag, in priority order, picks the screen;
        with neither flag set the task list is shown. */
    function Shown(): (screen: Screen)
      reads this
      ensures screen == Welcome <==> showWelcomeScreen
      ensures screen == CalendarPage <==> !showWelcomeScreen && showCalendar
      ensures screen == TaskListPage <==> !showWelcomeScreen && !showCalendar
    {
      if showWelcomeScreen then Welcome
      else if showCalendar then CalendarPage
      else TaskListPage
    }

    /** `today` stands for LocalDate.now(). */
    constructor (taskViewModel: TaskViewModel, today: LocalDate)
      ensures Valid() && Shown() == Welcome
      ensures this.taskViewModel == taskViewModel
      ensures userName == "" && selectedDate == today
      ensures showWelcomeScreen && !showCalendar && !showTaskListScreen
    {
      this.taskViewModel := taskViewModel;
      userName := "";
      showWelcomeScreen := true;
      showCalendar := false;
      showTaskListScreen := false;
      selectedDate := today;
    }

    /** `onNameEntered`: keeps the name as typed, blank or not, and leaves
        the welcome screen for good. */
    method NameEntered(name: string)
      requires Valid()
      modifies this
      ensures Valid() && Shown() == CalendarPage
      ensures userName == name && selectedDate == old(selectedDate)
      ensures !showWelcomeScreen && showCalendar && showTaskListScreen == old(showTaskListScreen)
      ensures taskViewModel.tasks == old(taskViewModel.tasks)
    {
      userName := name;
      showWelcomeScreen := false;
      showCalendar := true;
    }

    /** `onDateSelected`: stores the date and leaves the calendar. */
    method DateSelected(date: LocalDate)
      requires Valid()
      modifies this
      ensures Valid()
      ensures old(Shown()) == CalendarPage ==> Shown() == TaskListPage
      ensures selectedDate == date && userName == old(userName)
      ensures showWelcomeScreen == old(showWelcomeScreen) && !showCalendar
      ensures showTaskListScreen == old(showTaskListScreen)
      ensures taskViewModel.tasks == old(taskViewModel.tasks)
    {
      selectedDate := date;
      showCalendar := false;
    }

    /** `goBackFromTaskListScreen`: back to the calendar, never to the
        welcome screen, with name and date kept. */
    method Back()
      requires Valid()
      modifies this
      ensures Valid()
      ensures old(Shown()) == TaskListPage ==> Shown() == CalendarPage
      ensures showWelcomeScreen == old(showWelcomeScreen) && showCalendar && !showTaskListScreen
      ensures userName == old(userName) && selectedDate == old(selectedDate)
      ensures taskViewModel.tasks == old(taskViewModel.tasks)
    {
      showTaskListScreen := false;
      showCalendar := true;
    }

    /** The name, month and day the task-list screen is composed with. */
    function TaskListArguments(): (args: (string, Month, int))
      reads this
      ensures args.0 == userName
      ensures ValidDate(Date(selectedDate.year, args.1, args.2))
      ensures Date(selectedDate.year, args.1, args.2) == selectedDate
    {
      (userName, selectedDate.month, selectedDate.day)
    }
  }

  /** CalendarScreen: the year and month on show, and the grid they give. */
  class CalendarScreen {
    const taskViewModel: TaskViewModel
    var selectedYear: int
    var selectedMonth: Month

    /** `today` stands for Year.now() and LocalDate.now(). */
    constructor (taskViewModel: TaskViewModel, today: LocalDate)
      ensures this.taskViewModel == taskViewModel
      ensures selectedYear == today.year && selectedMonth == today.month
    {
      this.taskViewModel := taskViewModel;
      selectedYear := today.year;
      selectedMonth := today.month;
    }

    /** The years the year dialog offers, around the year on show. */
    function YearOptions(): seq<int>
      reads this
    {
      YearRange(selectedYear)
    }

    function Cells(): seq<Cell>
      reads this, taskViewModel
    {
      Grid(selectedYear, selectedMonth, taskViewModel.tasks)
    }

    /** `onYearChange`, called with one of YearOptions(). */
    method YearChange(year: int)
      requires year in YearOptions()
      modifies this
      ensures selectedYear == year && selectedMonth == old(selectedMonth)
    {
      selectedYear := year;
    }

    /** `onMonthChange` */
    method MonthChange(month: Month)
      modifies this
      ensures selectedMonth == month && selectedYear == old(selectedYear)
    {
      selectedMonth := month;
    }

    /** A click on the day cell with 0-based index `index`: the date it
        selects is the one its label shows, in the weekday column it sits in. */
    method DayClick(index: int) returns (date: LocalDate)
      requires 0 <= index < LengthOfMonth(selectedYear, selectedMonth)
      ensures date.year == selectedYear && date.month == selectedMonth
      ensures Cells()[LeadingBlanks(selectedYear, selectedMonth) + index].day == date.day
      ensures DayOfWeek(date) == (LeadingBlanks(selectedYear, selectedMonth) + index) % 7 + 1
    {
      date := Date(selectedYear, selectedMonth, index + 1);
      ColumnIsDayOfWeek(selectedYear, selectedMonth, taskViewModel.tasks,
                        LeadingBlanks(selectedYear, selectedMonth) + index);
    }
  }

  /** TaskListScreen: the tasks of one day and the add/edit dialog. */
  class TaskListScreen {
    const userName: string
    const selectedMonth: Month
    const selectedDay: int
    const taskViewModel: TaskViewModel
    var taskToEdit: Option<Task>
    var showDialog: bool
    var newTaskTitle: string
    var newTaskDescription: string
    var isTaskImportant: bool

    constructor (userName: string, selectedMonth: Month, selectedDay: int, taskViewModel: TaskViewModel)
      ensures this.userName == userName && this.selectedMonth == selectedMonth
      ensures this.selectedDay == selectedDay && this.taskViewModel == taskViewModel
      ensures FormIsReset()
    {
      this.userName := userName;
      this.selectedMonth := selectedMonth;
      this.selectedDay := selectedDay;
      this.taskViewModel := taskViewModel;
      taskToEdit := None;
      showDialog := false;
      newTaskTitle := "";
      newTaskDescription := "";
      isTaskImportant := false;
    }

    /** No task being edited, empty fields, dialog closed. */
    predicate FormIsReset()
      reads this
    {
      taskToEdit == None && newTaskTitle == "" && newTaskDescription == "" &&
      !isTaskImportant && !showDialog
    }

    /** `sortedTasks`, recomputed from the store on every read. */
    function SortedTasks(): (shown: seq<Task>)
      reads this, taskViewModel
      ensures forall t :: t in shown <==>
                t in taskViewModel.tasks && t.month == selectedMonth && t.day == selectedDay
      ensures forall i, j :: 0 <= i < j < |shown| && shown[j].isImportant ==> shown[i].isImportant
    {
      Query(taskViewModel.tasks, selectedMonth, selectedDay)
    }

    /** The heading: "Welcome, " and then the user's name, or "Guest". */
    function Greeting(): (text: string)
      reads this
      ensures |text| > 9 && text[..9] == "Welcome, "
      ensures !IsBlank(text[9..])
      ensures text[9..] == if IsBlank(userName) then "Guest" else userName
    {
      "Welcome, " + DisplayName(userName)
    }

    /** The dialog's title: the edited task's title, or "New Task". */
    function DialogTitle(): (title: string)
      reads this
      ensures taskToEdit.Some? ==> title == taskToEdit.value.title
      ensures taskToEdit.None? ==> title == "New Task"
    {
      match taskToEdit
      case Some(task) => task.title
      case None => "New Task"
    }

    /** The task the dialog's fields describe, on the screen's day. */
    function FormTask(): (task: Task)
      reads this
      ensures OnDay(selectedMonth, selectedDay)(task)
      ensures task.title == newTaskTitle && task.description == newTaskDescription
      ensures task.isImportant == isTaskImportant
    {
      Task(newTaskTitle, newTaskDescription, isTaskImportant, selectedMonth, selectedDay)
    }

    /** `setShowDialog`, also the dialog's dismiss and Cancel: nothing else
        changes, so a cancelled edit keeps its snapshot and pre-filled fields. */
    method SetShowDialog(value: bool)
      modifies this
      ensures showDialog == value
      ensures taskToEdit == old(taskToEdit) && newTaskTitle == old(newTaskTitle)
      ensures newTaskDescription == old(newTaskDescription) && isTaskImportant == old(isTaskImportant)
    {
      showDialog := value;
    }

    /** The title field's `onValueChange`. */
    method TitleChange(title: string)
      modifies this
      ensures newTaskTitle == title
      ensures taskToEdit == old(taskToEdit) && showDialog == old(showDialog)
      ensures newTaskDescription == old(newTaskDescription) && isTaskImportant == old(isTaskImportant)
    {
      newTaskTitle := title;
    }

    /** The description field's `onValueChange`. */
    method DescriptionChange(description: string)
      modifies this
      ensures newTaskDescription == description
      ensures taskToEdit == old(taskToEdit) && showDialog == old(showDialog)
      ensures newTaskTitle == old(newTaskTitle) && isTaskImportant == old(isTaskImportant)
    {
      newTaskDescription := description;
    }

    /** The checkbox's `onCheckedChange`. */
    method ImportantChange(important: bool)
      modifies this
      ensures isTaskImportant == important
      ensures taskToEdit == old(taskToEdit) && showDialog == old(showDialog)
      ensures newTaskTitle == old(newTaskTitle) && newTaskDescription == old(newTaskDescription)
    {
      isTaskImportant := important;
    }

    /** `onTaskEditClick`: remembers the task and pre-fills the form from it. */
    method TaskEditClick(task: Task)
      modifies this
      ensures taskToEdit == Some(task) && showDialog
      ensures DialogTitle() == task.title
      ensures newTaskTitle == task.title && newTaskDescription == task.description
      ensures isTaskImportant == task.isImportant
    {
      taskToEdit := Some(task);
      newTaskTitle := task.title;
      newTaskDescription := task.description;
      isTaskImportant := task.isImportant;
      showDialog := true;
    }

    /** The dialog's confirm button: with no task being edited, appends the
        form's task (no validation, no deduplication); otherwise overwrites
        the first task with the snapshot's key, if any. Then resets the form. */
    method Confirm()
      modifies this, taskViewModel
      ensures old(taskToEdit).None? ==>
        taskViewModel.tasks == old(taskViewModel.tasks) + [old(FormTask())]
      ensures old(taskToEdit).Some? ==>
        taskViewModel.tasks == Edited(old(taskViewModel.tasks), old(taskToEdit).value, old(FormTask()))
      ensures old(taskToEdit).None? ==> old(FormTask()) in SortedTasks()
      ensures FormIsReset() && DialogTitle() == "New Task"
    {
      var task := Task(newTaskTitle, newTaskDescription, isTaskImportant, selectedMonth, selectedDay);
      match taskToEdit {
        case Some(snapshot) =>
          var taskIndex := IndexOfFirst(taskViewModel.tasks, KeyMatches(snapshot));
          if taskIndex != -1 {
            taskViewModel.Set(taskIndex, task);
          }
        case None =>
          taskViewModel.Add(task);
      }
      taskToEdit := None;
      newTaskTitle := "";
      newTaskDescription := "";
      isTaskImportant := false;
      showDialog := false;
    }

    /** `onTaskRemoveClick`: removes the first equal task and closes the dialog. */
    method TaskRemoveClick(task: Task)
      modifies this, taskViewModel
      ensures taskViewModel.tasks == RemovedFirst(old(taskViewModel.tasks), task)
      ensures !showDialog && taskToEdit == old(taskToEdit)
      ensures newTaskTitle == old(newTaskTitle) && newTaskDescription == old(newTaskDescription)
      ensures isTaskImportant == old(isTaskImportant)
    {
      var _ := taskViewModel.Remove(task);
      SetShowDialog(false);
    }
  }

  // ---------------------------------------------------------------------------
  // Scenarios through the screens

  /** "Add Task", type a title, tick the checkbox if asked, confirm. */
  method AddThroughDialog(screen: TaskListScreen, title: string, important: bool)
    requires screen.FormIsReset()
    modifies screen, screen.taskViewModel
    ensures screen.taskViewModel.tasks ==
      old(screen.taskViewModel.tasks) + [Task(title, "", important, screen.selectedMonth, screen.selectedDay)]
    ensures screen.FormIsReset()
  {
    screen.SetShowDialog(true);
    screen.TitleChange(title);
    if important {
      screen.ImportantChange(true);
    }
    screen.Confirm();
  }

  /** Enter a name, pick March 5, add "Pay bills" and then the important
      "Birthday": the list shows Birthday first. */
  method PayBillsScenario() returns (shown: seq<Task>)
    ensures shown == [Task("Birthday", "", true, March, 5), Task("Pay bills", "", false, March, 5)]
  {
    var store := new TaskViewModel();
    var app := new AppScreen(store, Date(2024, January, 1));
    app.NameEntered("Ada");
    app.DateSelected(Date(2024, March, 5));
    var (name, month, day) := app.TaskListArguments();
    var screen := new TaskListScreen(name, month, day, store);
    AddThroughDialog(screen, "Pay bills", false);
    AddThroughDialog(screen, "Birthday", true);
    shown := screen.SortedTasks();
    PayBillsThenBirthday();
  }

  /** Open a task for editing, cancel, then press "Add Task" and confirm: the
      kept snapshot turns the add into an edit, and no task is appended. The
      reopened "Add Task" dialog is still titled with the edited task's title. */
  method CancelledEditScenario() returns (title: string, stored: seq<Task>)
    ensures title == "Pay bills"
    ensures stored == [Task("Gym", "", false, March, 5)]
  {
    var store := new TaskViewModel();
    var screen := new TaskListScreen("", March, 5, store);
    AddThroughDialog(screen, "Pay bills", false);
    screen.TaskEditClick(Task("Pay bills", "", false, March, 5));
    screen.SetShowDialog(false);
    screen.SetShowDialog(true);
    title := screen.DialogTitle();
    screen.TitleChange("Gym");
    screen.Confirm();
    stored := store.tasks;
  }
}
