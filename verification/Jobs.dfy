/** Operation codes, and the jobs that the core hands to the slaves. */
module Jobs {
  const REGISTER_OP := 0
  const CONNECT_OP := 1
  const POSTTXT_OP := 2
  const POSTTXTALL_OP := 3
  const POSTFILE_OP := 4
  const GETFILE_OP := 5
  const GETPREVMSGS_OP := 6
  const USRLIST_OP := 7
  const UNREGISTER_OP := 8
  const DISCONNECT_OP := 9
  const CREATEGROUP_OP := 10
  const ADDGROUP_OP := 11
  const DELGROUP_OP := 12
  const UNREGISTER_GROUP := 13
  const OP_OK := 20
  const TXT_MESSAGE := 21
  const FILE_MESSAGE := 22
  const OP_FAIL := 25
  const OP_NICK_ALREADY := 26
  const OP_NICK_UNKNOWN := 27
  const OP_MSG_TOOLONG := 28
  const OP_NO_SUCH_FILE := 29
  const OP_NOOP := 99

  /** The descriptor value that stands for "none" in the shared tables. */
  const VOID_FD := -1

  datatype WorkOp = Signup | Generic | Ending

  function WorkOpOf(op: int): WorkOp {
    if op == REGISTER_OP then Signup
    else if op == UNREGISTER_OP || op == DISCONNECT_OP then Ending
    else Generic
  }

  /** The two codes the core itself sends are answered without admission. */
  predicate NeedsAdmission(op: int) {
    op != OP_FAIL && op != OP_MSG_TOOLONG
  }

  /** The codes that have a branch in the slave's dispatch. */
  predicate Known(op: int) {
    REGISTER_OP <= op <= UNREGISTER_GROUP || !NeedsAdmission(op)
  }

  /** What serving a job does to shared state, step by step. */
  datatype Act = Query(write: bool) | Send(to: int) | Close

  /** One request. `plan` is what serving it will turn out to do: any finite list of statements
      and sends, fixed in advance and never looked at before the job is admitted. */
  datatype Job = Job(id: nat, op: int, fd: int, plan: seq<Act>)

  /** A close can only be the last act. */
  predicate CloseLast(acts: seq<Act>) {
    forall i :: 0 <= i < |acts| - 1 ==> acts[i] != Close
  }

  predicate SendsTo(acts: seq<Act>) {
    forall i :: 0 <= i < |acts| && acts[i].Send? ==> acts[i].to != VOID_FD
  }

  /** Exactly the disconnections close, once, at the end; nothing is sent to "no descriptor". */
  predicate GoodPlan(j: Job) {
    CloseLast(j.plan) && SendsTo(j.plan) && (Close in j.plan <==> j.op == DISCONNECT_OP)
  }
}
