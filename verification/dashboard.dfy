/** The dashboard's small helpers: the greeting for the hour, the name
    it greets, the chart series merging the monthly expense and income
    figures, and which transactions are shown as incoming. */
module Dashboard {
  import opened Common
  import opened Text
  import opened Session

  /** The greeting for an hour of the day (0 to 23). */
  function Greeting(hour: int): (g: string)
    ensures g == "Good morning" <==> hour < 12
    ensures g == "Good afternoon" <==> 12 <= hour < 18
    ensures g == "Good evening" <==> hour >= 18
  {
    if hour < 12 then "Good morning"
    else if hour < 18 then "Good afternoon"
    else "Good evening"
  }

  /** Position of a greeting in the day. */
  function Part(g: string): int
  {
    if g == "Good morning" then 0 else if g == "Good afternoon" then 1 else 2
  }

  /** Greetings never go back as the day goes on, and each of the three
      is given for some hour. */
  lemma GreetingFollowsDay(h1: int, h2: int)
    requires h1 <= h2
    ensures Part(Greeting(h1)) <= Part(Greeting(h2))
    ensures Greeting(0) == "Good morning" && Greeting(12) == "Good afternoon" && Greeting(18) == "Good evening"
  {
  }

  /** The name greeted: the user's name, or "Entrepreneur" when there is
      no user or the name is empty. */
  function DisplayName(user: Option<User>): (r: string)
    ensures r != ""
    ensures user.Some? && user.value.name != "" ==> r == user.value.name
    ensures !(user.Some? && user.value.name != "") ==> r == "Entrepreneur"
  {
    if user.Some? && user.value.name != "" then user.value.name else "Entrepreneur"
  }

  datatype Point = Point(name: string, amount: int)

  datatype ChartPoint = ChartPoint(name: string, expense: int, income: int)

  const ExpenseData: seq<Point> := [
    Point("Jan", 1500), Point("Feb", 1700), Point("Mar", 1400),
    Point("Apr", 1800), Point("May", 2000), Point("Jun", 1600)]

  const IncomeData: seq<Point> := [
    Point("Jan", 3000), Point("Feb", 3200), Point("Mar", 3100),
    Point("Apr", 3400), Point("May", 3700), Point("Jun", 3900)]

  /** The chart series: one point per expense month, its income taken
      from the income series at the same index. Reading past the end of
      the income series raises a TypeError in the page; that is `None`. */
  function Merge(expense: seq<Point>, income: seq<Point>): (r: Option<seq<ChartPoint>>)
    ensures r.None? <==> |income| < |expense|
    ensures r.Some? ==> |r.value| == |expense|
    ensures r.Some? ==> forall i :: 0 <= i < |expense| ==>
      r.value[i] == ChartPoint(expense[i].name, expense[i].amount, income[i].amount)
  {
    if |income| < |expense| then None
    else Some(seq(|expense|, i requires 0 <= i < |expense| => ChartPoint(expense[i].name, expense[i].amount, income[i].amount)))
  }

  /** Income points past the last expense month are never read. */
  lemma MergeIgnoresExtraIncome(expense: seq<Point>, income: seq<Point>, extra: seq<Point>)
    requires |income| >= |expense|
    ensures Merge(expense, income + extra) == Merge(expense, income)
  {
    var a := Merge(expense, income + extra).value;
    var b := Merge(expense, income).value;
    assert |a| == |b|;
    forall i | 0 <= i < |expense|
      ensures a[i] == b[i]
    {
      assert (income + extra)[i] == income[i];
    }
    assert a == b;
  }

  /** The page's two series merge without error into six months. */
  lemma SampleChart()
    ensures Merge(ExpenseData, IncomeData).Some?
    ensures |Merge(ExpenseData, IncomeData).value| == 6
    ensures Merge(ExpenseData, IncomeData).value[0] == ChartPoint("Jan", 1500, 3000)
    ensures Merge(ExpenseData, IncomeData).value[5] == ChartPoint("Jun", 1600, 3900)
  {
  }

  /** A transaction amount is shown as incoming exactly when it starts
      with a plus sign. */
  function IsIncoming(amount: string): (b: bool)
    ensures b <==> |amount| > 0 && amount[0] == '+'
  {
    StartsWith(amount, "+")
  }

  datatype Transaction = Transaction(id: int, name: string, amount: string, date: string)

  const RecentTransactions: seq<Transaction> := [
    Transaction(1, "Supplier Payment", "-$750.00", "Aug 2, 2023"),
    Transaction(2, "Client Payment", "+$2,500.00", "Aug 1, 2023"),
    Transaction(3, "Software Subscription", "-$49.99", "July 28, 2023")]

  /** Of the recent transactions only the client payment is incoming. */
  lemma SampleHighlights()
    ensures forall i :: 0 <= i < |RecentTransactions| ==>
      (IsIncoming(RecentTransactions[i].amount) <==> RecentTransactions[i].id == 2)
  {
  }
}
