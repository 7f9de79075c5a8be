/** src/queues.rs: the driver's two rings, over real arrays. */
module Queues {
  import opened Options
  import opened Ring
  import opened Commands
  import opened Protocol

  /** Half of the 64-byte entries that fit a 2 MiB page. */
  const QUEUE_LENGTH: nat := 0x20_0000 / 64 / 2

  class SubmissionQueue {
    const commands: array<Command>
    const len: nat
    var head: nat
    var tail: nat

    ghost predicate Valid()
      reads this
    {
      commands.Length == QUEUE_LENGTH && 0 < len <= QUEUE_LENGTH && tail < len
    }

    /** The length is clamped to the memory that is allocated. */
    constructor (len: nat)
      ensures head == tail == 0 && this.len == (if len < QUEUE_LENGTH then len else QUEUE_LENGTH)
      ensures fresh(commands) && commands[..] == seq(QUEUE_LENGTH, _ => ZERO_COMMAND)
      ensures len > 0 ==> Valid()
    {
      commands := new Command[QUEUE_LENGTH](_ => ZERO_COMMAND);
      head, tail := 0, 0;
      this.len := if len < QUEUE_LENGTH then len else QUEUE_LENGTH;
    }

    predicate IsEmpty()
      reads this
    {
      head == tail
    }

    predicate IsFull()
      requires len > 0
      reads this
    {
      head == (tail + 1) % len
    }

    method Submit(entry: Command) returns (r: nat)
      requires Valid()
      modifies this`tail, commands
      ensures Valid() && r == tail == Slot(old(tail) + 1, len)
      ensures commands[..] == old(commands[..])[old(tail) := entry]
      ensures IsEmpty() <==> old(IsFull())
    {
      SlotIsRemainder(tail + 1, len);
      commands[tail] := entry;
      tail := (tail + 1) % len;
      r := tail;
    }

    method SubmitChecked(entry: Command) returns (r: Option<nat>)
      requires Valid()
      modifies this`tail, commands
      ensures Valid() && (r == None <==> old(head == Slot(tail + 1, len)))
      ensures r == None ==> tail == old(tail) && commands[..] == old(commands[..])
      ensures r != None ==> r == Some(tail) && tail == Slot(old(tail) + 1, len)
      ensures r != None ==> commands[..] == old(commands[..])[old(tail) := entry]
    {
      SlotIsRemainder(tail + 1, len);
      if IsFull() {
        r := None;
      } else {
        var t := Submit(entry);
        r := Some(t);
      }
    }
  }

  class CompletionQueue {
    const commands: array<Completion>
    const len: nat
    var head: nat
    var phase: bool

    ghost predicate Valid()
      reads this
    {
      commands.Length == QUEUE_LENGTH && 0 < len <= QUEUE_LENGTH && head < len
    }

    constructor (len: nat)
      ensures head == 0 && phase && this.len == (if len < QUEUE_LENGTH then len else QUEUE_LENGTH)
      ensures fresh(commands) && commands[..] == seq(QUEUE_LENGTH, _ => ZERO_COMPLETION)
      ensures len > 0 ==> Valid()
    {
      commands := new Completion[QUEUE_LENGTH](_ => ZERO_COMPLETION);
      head, phase := 0, true;
      this.len := if len < QUEUE_LENGTH then len else QUEUE_LENGTH;
    }

    /** Takes the entry at the head if its tag is the expected one. */
    method Complete() returns (r: Option<(nat, Completion, nat)>)
      requires Valid()
      modifies this`head, this`phase
      ensures Valid() && (r != None <==> Tag(commands[old(head)]) == old(phase))
      ensures r == None ==> head == old(head) && phase == old(phase)
      ensures r != None ==> r == Some((head, commands[old(head)], old(head))) && head == Slot(old(head) + 1, len)
      ensures r != None ==> phase == if head == 0 then !old(phase) else old(phase)
    {
      SlotIsRemainder(head + 1, len);
      var entry := commands[head];
      if (entry.status % 2 == 1) == phase {
        var prev := head;
        head := (head + 1) % len;
        if head == 0 {
          phase := !phase;
        }
        r := Some((head, entry, prev));
      } else {
        r := None;
      }
    }

    /** The first half of complete_n, before it spins. */
    method SkipTo(n: nat)
      requires Valid() && n > 0
      modifies this`head, this`phase
      ensures Valid() && head == Slot(old(head) + (n - 1), len)
      ensures phase == if old(head) + (n - 1) >= len then !old(phase) else old(phase)
    {
      SlotIsRemainder(head + (n - 1), len);
      head := head + (n - 1);
      if head >= len {
        phase := !phase;
      }
      head := head % len;
    }
  }
}
