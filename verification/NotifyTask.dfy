/** The notify_task rows: their status table and what one execution writes. */
module NotifyTask {
  import opened Counting
  import opened TradeModel

  datatype NotifyStatus = Init | Success | Retry | Error

  /** notifyTransitions. There is no entry from Retry to Retry. */
  function Transitions(s: NotifyStatus): seq<NotifyStatus> {
    match s
    case Init => [Success, Retry, Error]
    case Retry => [Success, Error]
    case Success => []
    case Error => []
  }

  predicate CanTransition(s: NotifyStatus, to: NotifyStatus) { to in Transitions(s) }

  /** An illegal move reports an error and leaves the status. */
  function MoveTo(s: NotifyStatus, to: NotifyStatus): (NotifyStatus, bool) {
    if CanTransition(s, to) then (to, true) else (s, false)
  }

  predicate IsTerminal(s: NotifyStatus) { s == Success || s == Error }

  /** A terminal status is one no move leads out of, and no move leads back to the initial one. */
  lemma TerminalHasNoMoves(s: NotifyStatus)
    ensures IsTerminal(s) <==> forall t: NotifyStatus :: !MoveTo(s, t).1
    ensures !MoveTo(s, Init).1 && !MoveTo(s, s).1
  {
    if !IsTerminal(s) {
      assert MoveTo(s, Success).1;
    }
  }

  /** The result of one delivery; Null means the delivery lock was not obtained. */
  datatype Reply = SuccessReply | ErrorReply | NullReply | OtherReply

  /** The row as it was read: what an execution decides on. */
  datatype Snap = Snap(status: NotifyStatus, count: int)

  /** delivered is history: some delivery of the task has reported success. */
  datatype Row = Row(status: NotifyStatus, count: int, delivered: bool)

  /** The status an execution writes after a reply, if any. The updates carry no status guard: they go to the
      row whatever it holds by then. */
  function Decide(t: Snap, r: Reply): Option<NotifyStatus> {
    if IsTerminal(t.status) then None
    else
      match r
      case SuccessReply => if MoveTo(t.status, Success).1 then Some(Success) else None
      case ErrorReply =>
        if t.count > 4 then (if MoveTo(t.status, Error).1 then Some(Error) else None)
        else if MoveTo(t.status, Retry).1 then Some(Retry) else None
      case NullReply => None
      case OtherReply => if MoveTo(t.status, Retry).1 then Some(Retry) else None
  }

  function Written(row: Row, s: NotifyStatus): Row { row.(status := s, count := row.count + 1) }

  // ---- execList -------------------------------------------------------------------------------

  /** A task of the list: which row it is and what was read of it. */
  datatype Work = Work(row: nat, snap: Snap)

  /** Whether task j of the list is written, and with what: the database has to take the update. */
  function Effect(tasks: seq<Work>, replies: seq<Reply>, refused: seq<bool>, j: nat): Option<NotifyStatus>
    requires j < |tasks| == |replies| == |refused|
  {
    if refused[j] then None else Decide(tasks[j].snap, replies[j])
  }

  /** Row i after the first n tasks of the list were executed with these replies. */
  function AfterExec(row: Row, i: nat, tasks: seq<Work>, replies: seq<Reply>, refused: seq<bool>, n: nat): Row
    requires n <= |tasks| == |replies| == |refused|
  {
    if n == 0 then row
    else
      var before := AfterExec(row, i, tasks, replies, refused, n - 1);
      var w := Effect(tasks, replies, refused, n - 1);
      if tasks[n - 1].row == i && w.Some? then Written(before, w.value) else before
  }

  /** How many of the first n tasks of the list were written with status s. */
  function Writes(tasks: seq<Work>, replies: seq<Reply>, refused: seq<bool>, n: nat, s: NotifyStatus): nat
    requires n <= |tasks| == |replies| == |refused|
  {
    if n == 0 then 0
    else Writes(tasks, replies, refused, n - 1, s) + Bit(Effect(tasks, replies, refused, n - 1) == Some(s))
  }

  class TradeTaskService {
    var rows: seq<Row>

    constructor ()
      ensures rows == []
    {
      rows := [];
    }

    method UpdateNotifyTaskStatus(i: nat, s: NotifyStatus, refused: bool) returns (affected: nat)
      modifies this
      ensures affected == Bit(i < old(|rows|) && !refused)
      ensures rows == if i < old(|rows|) && !refused then old(rows)[i := Written(old(rows)[i], s)] else old(rows)
      ensures affected == 1 ==> rows == old(rows)[i := Row(s, old(rows)[i].count + 1, old(rows)[i].delivered)]
    {
      affected := 0;
      if i < |rows| && !refused {
        rows := rows[i := Written(rows[i], s)];
        affected := 1;
      }
    }

    /** The update of a task, if its status as read may move there: how many rows it changed. */
    method MoveAndUpdate(t: Work, to: NotifyStatus, refused: bool) returns (n: nat)
      requires t.row < |rows|
      modifies this
      ensures n == Bit(CanTransition(t.snap.status, to) && !refused)
      ensures rows == if n == 1 then old(rows)[t.row := Written(old(rows)[t.row], to)] else old(rows)
    {
      n := 0;
      if MoveTo(t.snap.status, to).1 {
        n := UpdateNotifyTaskStatus(t.row, to, refused);
      }
    }

    /** What one delivered task is written with, if anything. */
    method ExecOne(t: Work, reply: Reply, refused: bool) returns (w: Option<NotifyStatus>)
      requires t.row < |rows|
      modifies this
      ensures w == if refused then None else Decide(t.snap, reply)
      ensures rows == if w.Some? then old(rows)[t.row := Written(old(rows)[t.row], w.value)] else old(rows)
      ensures var pending := t.snap.status == Init || t.snap.status == Retry;
              && (w == Some(Success) <==> !refused && pending && reply == SuccessReply)
              && (w == Some(Error) <==> !refused && pending && reply == ErrorReply && t.snap.count > 4)
              && (w == Some(Retry) <==> !refused && t.snap.status == Init
                                        && (reply == OtherReply || (reply == ErrorReply && t.snap.count <= 4)))
              && w != Some(Init)
      ensures w.Some? ==> rows == old(rows)[t.row := Row(w.value, old(rows)[t.row].count + 1, old(rows)[t.row].delivered)]
    {
      if IsTerminal(t.snap.status) {
        return None;
      }
      var n: nat, to := 0, Retry;
      match reply {
        case SuccessReply => to := Success;
        case ErrorReply => to := if t.snap.count > 4 then Error else Retry;
        case NullReply => return None;
        case OtherReply =>
      }
      n := MoveAndUpdate(t, to, refused);
      return if n == 1 then Some(to) else None;
    }

    /** Delivers each task of the list and writes what the reply and the task's own snapshot call for; refused says
        which updates the database does not take. */
    method ExecList(tasks: seq<Work>, replies: seq<Reply>, refused: seq<bool>) returns (success: nat, errors: nat, retry: nat)
      requires |tasks| == |replies| == |refused| && forall j :: 0 <= j < |tasks| ==> tasks[j].row < |rows|
      modifies this
      ensures |rows| == old(|rows|)
      ensures forall i :: 0 <= i < |rows| ==> rows[i] == AfterExec(old(rows)[i], i, tasks, replies, refused, |tasks|)
      ensures success == Writes(tasks, replies, refused, |tasks|, Success)
      ensures errors == Writes(tasks, replies, refused, |tasks|, Error)
      ensures retry == Writes(tasks, replies, refused, |tasks|, Retry)
    {
      success, errors, retry := 0, 0, 0;
      for j := 0 to |tasks|
        invariant |rows| == old(|rows|)
        invariant forall i :: 0 <= i < |rows| ==> rows[i] == AfterExec(old(rows)[i], i, tasks, replies, refused, j)
        invariant success == Writes(tasks, replies, refused, j, Success)
        invariant errors == Writes(tasks, replies, refused, j, Error)
        invariant retry == Writes(tasks, replies, refused, j, Retry)
      {
        var t, reply := tasks[j], replies[j];
        var w := ExecOne(t, reply, refused[j]);
        if w == Some(Success) {
          success := success + 1;
        } else if w == Some(Error) {
          errors := errors + 1;
        } else if w == Some(Retry) {
          retry := retry + 1;
        }
      }
    }
  }
}
