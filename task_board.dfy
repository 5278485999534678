// client/src/components/TaskBoard.jsx: the project's task board. Tasks are
// split into three columns by status, and each card offers a button for each
// status other than its own. Statuses are the strings the client receives.
module TaskBoard {
  import opened Common

  /** A task as the board receives it. */
  datatype Card = Card(id: Id, title: string, status: string)

  /** The board's statuses, in column order. */
  const Statuses: seq<string> := ["todo", "in-progress", "done"]

  /** `tasks.filter(p)`: the tasks satisfying p, in their order. */
  function Filter(tasks: seq<Card>, p: Card -> bool): (r: seq<Card>)
    ensures |r| <= |tasks|
    ensures forall t :: t in r <==> t in tasks && p(t)
  {
    if |tasks| == 0 then []
    else (if p(tasks[0]) then [tasks[0]] else []) + Filter(tasks[1..], p)
  }

  /** Filtering commutes with concatenation, so each column keeps the input
      order. */
  lemma {:induction false} FilterAppend(a: seq<Card>, b: seq<Card>, p: Card -> bool)
    ensures Filter(a + b, p) == Filter(a, p) + Filter(b, p)
  {
    if |a| == 0 {
      assert a + b == b;
    } else {
      assert (a + b)[1..] == a[1..] + b;
      FilterAppend(a[1..], b, p);
    }
  }

  datatype Columns = Columns(todo: seq<Card>, inProgress: seq<Card>, done: seq<Card>)

  /** The three `filter` expressions of TaskBoard. */
  function Board(tasks: seq<Card>): (c: Columns)
    ensures forall t :: t in c.todo <==> t in tasks && t.status == "todo"
    ensures forall t :: t in c.inProgress <==> t in tasks && t.status == "in-progress"
    ensures forall t :: t in c.done <==> t in tasks && t.status == "done"
  {
    Columns(Filter(tasks, (t: Card) => t.status == "todo"),
            Filter(tasks, (t: Card) => t.status == "in-progress"),
            Filter(tasks, (t: Card) => t.status == "done"))
  }

  /** The columns hold every task of a board status once: together with the
      tasks of other statuses they account for the whole input. */
  lemma {:induction false} ColumnsPartition(tasks: seq<Card>)
    ensures |Board(tasks).todo| + |Board(tasks).inProgress| + |Board(tasks).done|
            + |Filter(tasks, (t: Card) => t.status !in Statuses)| == |tasks|
  {
    if |tasks| > 0 {
      ColumnsPartition(tasks[1..]);
    }
  }

  /** TaskCard's buttons: the statuses other than the card's own, in column
      order. */
  function Offered(status: string): (r: seq<string>)
    ensures forall s :: s in r <==> s in Statuses && s != status
    ensures status in Statuses ==> |r| == 2
    ensures status !in Statuses ==> r == Statuses
    ensures forall i, j :: 0 <= i < j < |r| ==> r[i] != r[j]
  {
    (if status != "todo" then ["todo"] else [])
    + (if status != "in-progress" then ["in-progress"] else [])
    + (if status != "done" then ["done"] else [])
  }

  /** The calls `onStatusChange(task._id, status)` a card's buttons make. */
  function Buttons(card: Card): (r: seq<(Id, string)>)
    ensures |r| == |Offered(card.status)|
    ensures forall b :: b in r ==> b.0 == card.id && b.1 in Statuses && b.1 != card.status
    ensures forall s :: (card.id, s) in r <==> s in Offered(card.status)
    ensures forall i, j :: 0 <= i < j < |r| ==> r[i] != r[j]
  {
    var offered := Offered(card.status);
    var r := seq(|offered|, k requires 0 <= k < |offered| => (card.id, offered[k]));
    assert forall s :: s in offered ==> (card.id, s) in r by {
      forall s | s in offered ensures (card.id, s) in r {
        var k :| 0 <= k < |offered| && offered[k] == s;
        assert r[k] == (card.id, s);
      }
    }
    r
  }
}
