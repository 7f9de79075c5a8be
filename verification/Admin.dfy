/** The queue management commands of a controller (sections 5.3 to 5.6 of NVM Express 1.4):
    which queues are live, where their memory is, and which commands it accepts. */
module AdminModel {
  import opened Arithmetic
  import opened Commands

  /** A live queue as the controller knows it: its memory, its size in entries, and for a
      submission queue the completion queue it reports to. */
  datatype Queue = Queue(base: nat, entries: nat, cq: nat)

  datatype Admin = Admin(maxQueues: nat, maxEntries: nat, cqs: map<nat, Queue>, sqs: map<nat, Queue>)

  const INVALID_FIELD: nat := 0x02
  const INVALID_COMPLETION_QUEUE: nat := 0x100
  const INVALID_QUEUE_ID: nat := 0x101
  const INVALID_QUEUE_SIZE: nat := 0x102
  const INVALID_QUEUE_DELETION: nat := 0x10C

  predicate UsableId(a: Admin, q: nat, live: map<nat, Queue>) {
    1 <= q <= a.maxQueues && q !in live
  }

  predicate UsableSize(a: Admin, entries: nat) {
    2 <= entries <= a.maxEntries
  }

  /** The status of a queue management command, before anything is changed. `fault` is any other
      reason the controller may have to refuse. A controller may require queues in one piece; this one
      does. */
  function Judge(a: Admin, c: Command, fault: nat): nat {
    var q := QueueId(c);
    var entries := QueueSize(c) + 1;
    if fault != 0 then fault
    else match c.opcode
      case 5 =>
        if !UsableId(a, q, a.cqs) then INVALID_QUEUE_ID
        else if !UsableSize(a, entries) then INVALID_QUEUE_SIZE
        else if !IsContiguous(c) then INVALID_FIELD
        else SUCCESS
      case 1 =>
        if AttachedCq(c) !in a.cqs then INVALID_COMPLETION_QUEUE
        else if !UsableId(a, q, a.sqs) then INVALID_QUEUE_ID
        else if !UsableSize(a, entries) then INVALID_QUEUE_SIZE
        else if !IsContiguous(c) then INVALID_FIELD
        else SUCCESS
      case 0 => if q !in a.sqs then INVALID_QUEUE_ID else SUCCESS
      case 4 =>
        if q !in a.cqs then INVALID_QUEUE_ID
        else if exists k :: k in a.sqs && a.sqs[k].cq == q then INVALID_QUEUE_DELETION
        else SUCCESS
      case _ => INVALID_OPCODE
  }

  function Perform(a: Admin, c: Command): Admin {
    var q := QueueId(c);
    var entries := QueueSize(c) + 1;
    match c.opcode
    case 5 => a.(cqs := a.cqs[q := Queue(c.ptr0, entries, q)])
    case 1 => a.(sqs := a.sqs[q := Queue(c.ptr0, entries, AttachedCq(c))])
    case 0 => a.(sqs := a.sqs - {q})
    case 4 => a.(cqs := a.cqs - {q})
    case _ => a
  }

  /** submit_and_complete_admin: one command, carried out if its status is success. */
  function Manage(a: Admin, c: Command, fault: nat): (Admin, nat) {
    var status := Judge(a, c, fault);
    (if status == SUCCESS then Perform(a, c) else a, status)
  }

  // What the driver's four commands do, with the fields decoded.

  lemma CreateCqFields(cid: nat, q: nat, base: nat, size: nat)
    requires q < U16 && size < U16
    ensures var c := CreateIoCompletionQueue(cid, q, base, size);
      c.opcode == 5 && QueueId(c) == q && QueueSize(c) == size && c.ptr0 == base && IsContiguous(c)
  {
    Fields(size, q);
  }

  lemma CreateSqFields(cid: nat, q: nat, base: nat, size: nat, cq: nat)
    requires q < U16 && size < U16 && cq < U16
    ensures var c := CreateIoSubmissionQueue(cid, q, base, size, cq);
      && c.opcode == 1 && QueueId(c) == q && QueueSize(c) == size && c.ptr0 == base && AttachedCq(c) == cq
      && IsContiguous(c)
  {
    Fields(size, q);
    Fields(cq, 1);
    DivModUnique(cq * U16 + 1, 2, cq * (U16 / 2), 1);
  }

  lemma DeleteFields(cid: nat, q: nat)
    requires q < U16
    ensures QueueId(DeleteIoSubmissionQueue(cid, q)) == q && DeleteIoSubmissionQueue(cid, q).opcode == 0
    ensures QueueId(DeleteIoCompletionQueue(cid, q)) == q && DeleteIoCompletionQueue(cid, q).opcode == 4
  {
    Fields(0, q);
  }

  lemma CreateCq(a: Admin, cid: nat, q: nat, base: nat, size: nat, fault: nat)
    requires q < U16 && size < U16
    ensures var (b, status) := Manage(a, CreateIoCompletionQueue(cid, q, base, size), fault);
      && (status == SUCCESS <==> fault == 0 && UsableId(a, q, a.cqs) && UsableSize(a, size + 1))
      && b == if status == SUCCESS then a.(cqs := a.cqs[q := Queue(base, size + 1, q)]) else a
  {
    hide QueueId, QueueSize, AttachedCq, IsContiguous, CreateIoCompletionQueue, CreateIoSubmissionQueue,
         DeleteIoSubmissionQueue, DeleteIoCompletionQueue;
    CreateCqFields(cid, q, base, size);
  }

  lemma CreateSq(a: Admin, cid: nat, q: nat, base: nat, size: nat, cq: nat, fault: nat)
    requires q < U16 && size < U16 && cq < U16
    ensures var (b, status) := Manage(a, CreateIoSubmissionQueue(cid, q, base, size, cq), fault);
      && (status == SUCCESS <==> fault == 0 && cq in a.cqs && UsableId(a, q, a.sqs) && UsableSize(a, size + 1))
      && b == if status == SUCCESS then a.(sqs := a.sqs[q := Queue(base, size + 1, cq)]) else a
  {
    hide QueueId, QueueSize, AttachedCq, IsContiguous, CreateIoCompletionQueue, CreateIoSubmissionQueue,
         DeleteIoSubmissionQueue, DeleteIoCompletionQueue;
    CreateSqFields(cid, q, base, size, cq);
  }

  lemma DeleteSq(a: Admin, cid: nat, q: nat, fault: nat)
    requires q < U16
    ensures var (b, status) := Manage(a, DeleteIoSubmissionQueue(cid, q), fault);
      && (status == SUCCESS <==> fault == 0 && q in a.sqs)
      && b == if status == SUCCESS then a.(sqs := a.sqs - {q}) else a
  {
    hide QueueId, QueueSize, AttachedCq, IsContiguous, CreateIoCompletionQueue, CreateIoSubmissionQueue,
         DeleteIoSubmissionQueue, DeleteIoCompletionQueue;
    DeleteFields(cid, q);
  }

  lemma DeleteCq(a: Admin, cid: nat, q: nat, fault: nat)
    requires q < U16
    ensures var (b, status) := Manage(a, DeleteIoCompletionQueue(cid, q), fault);
      && (status == SUCCESS <==> fault == 0 && q in a.cqs && forall k :: k in a.sqs ==> a.sqs[k].cq != q)
      && b == if status == SUCCESS then a.(cqs := a.cqs - {q}) else a
  {
    hide QueueId, QueueSize, AttachedCq, IsContiguous, CreateIoCompletionQueue, CreateIoSubmissionQueue,
         DeleteIoSubmissionQueue, DeleteIoCompletionQueue;
    DeleteFields(cid, q);
  }

  /** Two 16-bit fields packed into one 32-bit word come out again. */
  lemma Fields(high: nat, low: nat)
    requires high < U16 && low < U16
    ensures high % U16 == high && low % U16 == low
    ensures (high * U16 + low) / U16 == high && (high * U16 + low) % U16 == low
  {
    DivModUnique(high, U16, 0, high);
    DivModUnique(low, U16, 0, low);
    DivModUnique(high * U16 + low, U16, high, low);
  }
}
