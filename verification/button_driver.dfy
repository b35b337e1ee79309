/**
  The button driver (button/rk_button.c) as an object: the fields of
  `struct button_data` that its handlers and file operations change, with
  one method per handler. Each method is proved to move the device exactly
  as the matching ButtonSpec function says.
*/
module ButtonDriver {
  import opened Wrappers
  import opened ButtonSpec

  class ButtonDevice {
    /** The kernel tick rate HZ, fixed when the kernel is built. */
    const hz: nat
    /** The debounce `timer_list`: its expiry while pending, None when it is not. */
    var deadline: Option<nat>
    var evPress: int
    var value: int

    /** The device as a value. */
    function State(): Button
      reads this
    {
      Button(deadline, evPress, value)
    }

    ghost predicate Valid()
      reads this
    {
      ButtonSpec.Valid(State())
    }

    /** The latch set-up of `button_probe`: zero-filled object, `ev_press = 0`, timer not armed. */
    constructor (hz: nat)
      ensures this.hz == hz
      ensures State() == Probe() && Valid()
    {
      this.hz := hz;
      deadline := None;
      value := 0;
      evPress := 0;
    }

    /** `button_interrupt` at time `jiffies`: re-arm the one debounce timer. */
    method Interrupt(jiffies: nat)
      requires Valid()
      modifies this
      ensures Valid()
      ensures State() == Edge(old(State()), jiffies, hz)
    {
      deadline := Some(jiffies + hz / 100);
    }

    /**
      `button_timeout_fun`, run by the timer subsystem at time `now`, once the
      armed timer's deadline has passed; `level` is what `gpio_get_value`
      reads from the line.
    */
    method TimeoutFun(now: nat, level: bool)
      requires Valid() && CanExpire(State(), now)
      modifies this
      ensures Valid()
      ensures State() == Timeout(old(State()), level)
    {
      deadline := None;
      value := LineValue(level);
      evPress := 1;
    }

    /**
      `button_read`, as one step taken when the read can finish (see
      ReadCanReturn). `nonblock` is O_NONBLOCK, `signalled` whether a signal
      ended the wait, `copyOk` whether `copy_to_user` succeeds. Returns the
      `ssize_t` result and the bytes that reach the reader.
    */
    method Read(nonblock: bool, signalled: bool, count: nat, copyOk: bool) returns (ret: int, copied: seq<char>)
      requires Valid() && ReadCanReturn(State(), nonblock, signalled)
      modifies this
      ensures Valid()
      ensures var (reply, b') := ButtonSpec.Read(old(State()), nonblock, signalled, count, copyOk);
        ret == ReturnValue(reply) && copied == Delivered(reply) && State() == b'
    {
      if evPress == 0 {
        if nonblock {
          return -EAGAIN, [];
        }
        // The wait ends with nothing latched only when a signal interrupts it.
        return -ERESTARTSYS, [];
      }
      evPress := 0;
      var kbuf := KernelBuffer(value);
      var n := Min(KBUF_SIZE, count);
      if copyOk || n == 0 {
        ret, copied := n, kbuf[..n];
      } else {
        ret, copied := -EFAULT, [];
      }
    }

    /** `button_poll`: a query that changes nothing. */
    method Poll() returns (mask: bv32)
      ensures mask == PollMask(State())
      ensures mask != 0 <==> evPress != 0
    {
      mask := 0;
      if evPress != 0 {
        mask := mask | (POLLIN | POLLRDNORM);
      }
    }
  }
}
