/**
  The timer2 driver (timer/rk_timer.c) as objects: the memory-mapped register
  block and the driver's `struct rk_timer`, with one method per driver function.
  Each method does the read-modify-write of the C code and is proved to move the
  device exactly as the matching TimerSpec function says.
*/
module TimerDriver {
  import opened Wrappers
  import opened TimerSpec

  /** The register block `struct rk_timer_reg` (its read-only current-value words are not modelled). */
  class TimerRegisters {
    var loadCnt0: u32
    var loadCnt1: u32
    var loadCnt2: u32
    var loadCnt3: u32
    var stat: u32
    var ctlreg: bv32

    /** The register contents as a value. */
    function View(): Regs
      reads this
    {
      Regs(loadCnt0, loadCnt1, loadCnt2, loadCnt3, stat, ctlreg)
    }

    /** A register block whose power-on contents are `initial`. */
    constructor (initial: Regs)
      ensures View() == initial
    {
      loadCnt0, loadCnt1, loadCnt2, loadCnt3 := initial.loadCnt0, initial.loadCnt1, initial.loadCnt2, initial.loadCnt3;
      stat, ctlreg := initial.stat, initial.ctlreg;
    }
  }

  /** The driver state `struct rk_timer`, bound to one register block. */
  class RkTimer {
    const reg: TimerRegisters
    var interval: u64
    var done: bool
    var devOpened: bool

    /** The device as a value: registers plus driver fields. */
    function State(): Timer
      reads this, reg
    {
      Timer(reg.View(), interval, done, devOpened)
    }

    /**
      The part of `rk_timer_probe` that concerns the model: a zero-filled
      `struct rk_timer` bound to `reg`, then `timer_init`.
    */
    constructor (reg: TimerRegisters)
      modifies reg
      ensures this.reg == reg
      ensures State() == TimerSpec.Init(Timer(old(reg.View()), 0, false, false))
    {
      this.reg := reg;
      interval := 0;
      done := false;
      devOpened := false;
      new;
      InitHw();
    }

    /** `timer_set_interval`. */
    method SetIntervalRegs(us: u64)
      modifies reg
      ensures State() == old(State()).(regs := SetInterval(old(reg.View()), us))
    {
      if MIN_INTERVAL_US <= us <= MAX_INTERVAL_US {
        var count: u64 := TICKS_PER_US * us;
        reg.loadCnt2 := 0;
        reg.loadCnt3 := 0;
        reg.loadCnt0 := LowWord(count);
        reg.loadCnt1 := HighWord(count);
      }
    }

    /** `timer_enable`. */
    method Enable()
      modifies reg
      ensures State() == TimerSpec.Enable(old(State()))
    {
      var val := reg.ctlreg;
      val := EnableWord(val);
      reg.ctlreg := val;
    }

    /** `timer_disable`. */
    method Disable()
      modifies reg
      ensures State() == TimerSpec.Disable(old(State()))
    {
      var val := reg.ctlreg;
      val := DisableWord(val);
      reg.ctlreg := val;
    }

    /** `timer_init`. */
    method InitHw()
      modifies this, reg
      ensures State() == TimerSpec.Init(old(State()))
    {
      var val := reg.ctlreg;
      val := InitWord(val);
      reg.ctlreg := val;
      SetIntervalRegs(DEFAULT_INTERVAL_US);
      interval := DEFAULT_INTERVAL_US;
    }

    /** `rk_timer_open`: exclusive open through test-and-set of bit 0 of `dev_opened`. */
    method Open() returns (r: int)
      modifies this
      ensures (r, State()) == TimerSpec.Open(old(State()))
      ensures r == 0 <==> !old(devOpened)
    {
      var wasSet := devOpened;
      devOpened := true;
      if wasSet {
        return -EBUSY;
      }
      return 0;
    }

    /** `rk_timer_release`. */
    method Release() returns (r: int)
      modifies this, reg
      ensures r == 0
      ensures State() == TimerSpec.Release(old(State()))
    {
      devOpened := false;
      Disable();
      return 0;
    }

    /** `rk_timer_interrupt`, run as one atomic step. */
    method Interrupt()
      modifies this, reg
      ensures State() == TimerSpec.Interrupt(old(State()))
    {
      reg.stat := 1;
      done := true;
    }

    /** `rk_timer_poll`: report and clear a latched tick. */
    method Poll() returns (mask: bv32)
      modifies this
      ensures (mask, State()) == TimerSpec.Poll(old(State()))
      ensures mask != 0 <==> old(done)
      ensures !done
    {
      if done {
        mask := POLLIN | POLLRDNORM;
        done := false;
      } else {
        mask := 0;
      }
    }

    /**
      `rk_timer_ioctl`. `arg` is the value `copy_from_user` fetches for
      SET_INTERVAL, None when the copy faults.
    */
    method Ioctl(cmd: u32, arg: Option<u32>) returns (r: int)
      modifies this, reg
      ensures (r, State()) == TimerSpec.Ioctl(old(State()), cmd, arg)
    {
      if cmd == RK_TIMER_START {
        Enable();
      } else if cmd == RK_TIMER_STOP {
        Disable();
      } else if cmd == RK_TIMER_SET_INTERVAL {
        if arg.None? {
          return -EFAULT;
        }
        interval := arg.value;
        SetIntervalRegs(interval);
      } else {
        return -ENOTTY;
      }
      return 0;
    }

    /** `rk_timer_suspend`. */
    method Suspend() returns (r: int)
      modifies reg
      ensures r == 0
      ensures State() == TimerSpec.Suspend(old(State()))
    {
      Disable();
      return 0;
    }

    /** `rk_timer_resume`. */
    method Resume() returns (r: int)
      modifies reg
      ensures r == 0
      ensures State() == TimerSpec.Resume(old(State()))
    {
      SetIntervalRegs(interval);
      if devOpened {
        Enable();
      }
      return 0;
    }
  }
}
