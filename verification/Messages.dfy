/** The message format of the kernel's interprocess communication (include/ipc.h). */
module Messages {
  /** Source recorded in a message that stands for a hardware interrupt. */
  const INTERRUPT := -10

  /** Type recorded in a message that stands for a hardware interrupt. */
  const HARD_INT := 1

  /** A MESSAGE: the sender, the type, and the words of its payload union (struct mess3). */
  datatype Message = Message(
    source: int, mtype: int,
    i1: int, i2: int, i3: int, i4: int,
    l1: int, l2: int,
    p1: int, p2: int)

  /** What reset_msg and memset leave in a buffer. */
  const ZERO_MESSAGE := Message(0, 0, 0, 0, 0, 0, 0, 0, 0, 0)

  /** The message msg_receive builds for an interrupt that was pending. */
  const INTERRUPT_MESSAGE := Message(INTERRUPT, HARD_INT, 0, 0, 0, 0, 0, 0, 0, 0)

  /** The messages have the same type and payload; only their sources may differ. */
  predicate SameContent(a: Message, b: Message) {
    && a.mtype == b.mtype
    && a.i1 == b.i1 && a.i2 == b.i2 && a.i3 == b.i3 && a.i4 == b.i4
    && a.l1 == b.l1 && a.l2 == b.l2
    && a.p1 == b.p1 && a.p2 == b.p2
  }
}
