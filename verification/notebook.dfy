/**
 * The notebook demo: three canned scenarios, each with a SQL cell, a Python
 * cell and a mock result table; cells can be edited and run, and switching
 * scenario reloads both cells.
 */
module Notebook {
  import opened Wrappers
  import opened Strings

  datatype ScenarioId = Revenue | Signups | Retention

  /** A mock result row; `cohort` holds the first column whatever its header says. */
  datatype ResultRow = ResultRow(cohort: string, metric: int)

  /** A two-column query `SELECT first, expr AS alias rest`, spelled out as the scenarios write it. */
  function SelectSql(first: string, expr: string, alias: string, rest: string): string {
    "SELECT " + first + ", " + expr + " AS " + alias + " " + rest
  }

  function ScenarioSql(id: ScenarioId): string {
    match id
    case Revenue => SelectSql("cohort", "SUM(revenue)", "sum_revenue", "FROM orders GROUP BY cohort;")
    case Signups => SelectSql("plan", "COUNT(*)", "signups", "FROM accounts GROUP BY plan ORDER BY signups DESC;")
    case Retention => SelectSql("month", "pct_active", "active_pct", "FROM retention_curve ORDER BY month;")
  }

  /** The alias of a query built by `SelectSql` occurs in it right after ` AS `. */
  lemma AliasOccurs(first: string, expr: string, alias: string, rest: string)
    ensures OccursAt(SelectSql(first, expr, alias, rest), " AS " + alias, |"SELECT " + first + ", " + expr|)
  {
    var a := "SELECT " + first + ", " + expr;
    var b := " AS " + alias;
    var c := " " + rest;
    assert SelectSql(first, expr, alias, rest) == a + b + c;
    assert (a + b + c)[|a|..|a| + |b|] == b;
  }

  function ScenarioPython(id: ScenarioId): string {
    match id
    case Revenue => "import seaborn as sns\nsns.lineplot(data=cohort_df, x='cohort', y='sum_revenue')"
    case Signups => "import seaborn as sns\nsns.barplot(data=plan_df, x='plan', y='signups')"
    case Retention => "import seaborn as sns\nsns.lineplot(data=ret_df, x='month', y='active_pct')"
  }

  /** The unit shown with the metric: `$`, `%` or nothing. */
  function ScenarioUnit(id: ScenarioId): string {
    match id
    case Revenue => "$"
    case Signups => ""
    case Retention => "%"
  }

  function ScenarioRows(id: ScenarioId): seq<ResultRow> {
    match id
    case Revenue => [ResultRow("Q1 2024", 128000), ResultRow("Q2 2024", 174500), ResultRow("Q3 2024", 203200)]
    case Signups => [ResultRow("Pro", 420), ResultRow("Team", 310), ResultRow("Free", 190)]
    case Retention => [ResultRow("Month 1", 100), ResultRow("Month 2", 86), ResultRow("Month 3", 79)]
  }

  /** Every scenario has three result rows, and the signup rows come in the descending order their query asks for. */
  lemma ScenarioRowsShape(id: ScenarioId)
    ensures |ScenarioRows(id)| == 3
    ensures id == Signups ==> forall k :: 0 < k < 3 ==> ScenarioRows(id)[k - 1].metric > ScenarioRows(id)[k].metric
  {
  }

  /** The state of the demo. */
  datatype NotebookState = NotebookState(scenario: ScenarioId, sql: string, python: string, sqlRan: bool, pyRan: bool)

  /** A scenario freshly loaded: its own cell texts, nothing run. */
  function Loaded(id: ScenarioId): (s: NotebookState)
    ensures s.scenario == id && !s.sqlRan && !s.pyRan
    ensures s.sql == ScenarioSql(id) && s.python == ScenarioPython(id)
  {
    NotebookState(id, ScenarioSql(id), ScenarioPython(id), false, false)
  }

  function InitialNotebook(): (s: NotebookState)
    ensures s == Loaded(Revenue)
  {
    NotebookState(Revenue, ScenarioSql(Revenue), ScenarioPython(Revenue), false, false)
  }

  /** `handleScenarioChange`: nothing happens for the current scenario, another one is loaded afresh. */
  function ScenarioChange(s: NotebookState, next: ScenarioId): (r: NotebookState)
    ensures next == s.scenario ==> r == s
    ensures next != s.scenario ==> r == Loaded(next)
  {
    if next == s.scenario then s
    else NotebookState(next, ScenarioSql(next), ScenarioPython(next), false, false)
  }

  /** `handleRunSql`: only the SQL flag changes. */
  function RunSql(s: NotebookState): (r: NotebookState)
    ensures r.sqlRan
    ensures r.scenario == s.scenario && r.sql == s.sql && r.python == s.python && r.pyRan == s.pyRan
  {
    s.(sqlRan := true)
  }

  /** `handleRunPython`: only the Python flag changes. */
  function RunPython(s: NotebookState): (r: NotebookState)
    ensures r.pyRan
    ensures r.scenario == s.scenario && r.sql == s.sql && r.python == s.python && r.sqlRan == s.sqlRan
  {
    s.(pyRan := true)
  }

  /** Typing in the SQL cell replaces its text and nothing else; running does not look at the text. */
  function EditSql(s: NotebookState, text: string): (r: NotebookState)
    ensures r.sql == text && r.(sql := s.sql) == s
  {
    s.(sql := text)
  }

  function EditPython(s: NotebookState, text: string): (r: NotebookState)
    ensures r.python == text && r.(python := s.python) == s
  {
    s.(python := text)
  }

  /** Switching to a scenario twice is the same as switching once. */
  lemma ScenarioChangeIdempotent(s: NotebookState, next: ScenarioId)
    ensures ScenarioChange(ScenarioChange(s, next), next) == ScenarioChange(s, next)
  {
  }

  /** Leaving a scenario and coming back discards the edits and the run results. */
  lemma LeaveAndReturnReloads(s: NotebookState, other: ScenarioId)
    requires other != s.scenario
    ensures ScenarioChange(ScenarioChange(s, other), s.scenario) == Loaded(s.scenario)
  {
  }

  /** The two run buttons are independent of each other and of repetition. */
  lemma RunsCommute(s: NotebookState)
    ensures RunSql(RunPython(s)) == RunPython(RunSql(s))
    ensures RunSql(RunSql(s)) == RunSql(s) && RunPython(RunPython(s)) == RunPython(s)
  {
  }

  /** The result table's column headers. */
  function ResultHeaders(id: ScenarioId): (string, string) {
    (if id == Signups then "plan" else "cohort",
     match id
     case Revenue => "sum_revenue"
     case Signups => "signups"
     case Retention => "active_pct")
  }

  /** Each scenario has its own metric header, and it is the alias its SQL gives that column. */
  lemma MetricHeaderIsSqlAlias(id: ScenarioId)
    ensures exists p :: OccursAt(ScenarioSql(id), " AS " + ResultHeaders(id).1, p)
    ensures forall other :: other != id ==> ResultHeaders(other).1 != ResultHeaders(id).1
  {
    var first, expr, rest;
    match id {
      case Revenue => first, expr, rest := "cohort", "SUM(revenue)", "FROM orders GROUP BY cohort;";
      case Signups => first, expr, rest := "plan", "COUNT(*)", "FROM accounts GROUP BY plan ORDER BY signups DESC;";
      case Retention => first, expr, rest := "month", "pct_active", "FROM retention_curve ORDER BY month;";
    }
    assert ScenarioSql(id) == SelectSql(first, expr, ResultHeaders(id).1, rest);
    AliasOccurs(first, expr, ResultHeaders(id).1, rest);
    assert "sum_revenue"[1] != "signups"[1];
  }

  /** The text around a metric cell: a `$` before revenue, a `%` after retention. */
  function MetricAffixes(unit: string): (r: (string, string))
    ensures r.0 == (if unit == "$" then "$" else "")
    ensures r.1 == (if unit == "%" then "%" else "")
    ensures r.0 == [] || r.1 == []
  {
    (if unit == "$" then "$" else "", if unit == "%" then "%" else "")
  }

  /** Revenue figures carry a leading `$`, retention figures a trailing `%`, and signup counts are bare. */
  lemma ScenarioAffixes(id: ScenarioId)
    ensures MetricAffixes(ScenarioUnit(id)) ==
      match id
      case Revenue => ("$", "")
      case Signups => ("", "")
      case Retention => ("", "%")
  {
    assert "%" != "$";
  }

  /** The result preview: present only once the SQL cell has run, and always the scenario's own rows. */
  function ResultPreview(s: NotebookState): (r: Option<((string, string), seq<ResultRow>)>)
    ensures r.Some? <==> s.sqlRan
    ensures r.Some? ==> r.value.1 == ScenarioRows(s.scenario) && |r.value.1| == 3
  {
    ScenarioRowsShape(s.scenario);
    if s.sqlRan then Some((ResultHeaders(s.scenario), ScenarioRows(s.scenario))) else None
  }

  /** Edits to the SQL text never change the preview: the results are canned. */
  lemma PreviewIgnoresSqlText(s: NotebookState, text: string)
    ensures ResultPreview(EditSql(s, text)) == ResultPreview(s)
  {
  }
}
