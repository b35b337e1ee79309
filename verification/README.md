# rk3399 timer2 and button drivers: a Dafny model

This project models the event-notification core of two Linux character
drivers for the Rockchip RK3399:

- **timer2** (`timer/rk_timer.c`). The driver programs a 24 MHz hardware
  countdown timer through its register block: the load-count words
  `load_cnt0..3`, the interrupt status word `stat` and the control word
  `ctlreg`. It lets only one process hold the device open at a time. Each
  timer interrupt sets a one-slot `done` flag, and `poll` reports and clears
  that flag. An `ioctl` starts the timer, stops it or sets its interval.
  Suspend and resume stop the timer and re-program it.
- **button** (`button/rk_button.c`). Each edge interrupt on the button's
  GPIO line re-arms one debounce timer to `jiffies + HZ/100`. When that timer
  expires, the driver samples the line into `value` and sets `ev_press`.
  `read` consumes the latched value as decimal text. It fails with `-EAGAIN`
  when nothing is latched and the file is non-blocking; otherwise it waits.
  `poll` reports a latched event without consuming it.

Each driver is modelled twice, and the two halves are tied together:

- `TimerSpec` and `ButtonSpec` are the specification, written as values: a
  datatype for the device state, one function per driver function, and
  lemmas stating what the driver promises.
- `TimerDriver` and `ButtonDriver` hold the imperative model. They are
  classes whose fields are the register words and driver fields. Each method
  updates those fields in place, in the order the C function does. The new
  control word is computed by a pure function (`EnableWord`, `DisableWord`,
  `InitWord`) that performs the same bit operations as the C. Each method is
  proved to move the device exactly as the matching specification function
  says (`ensures State() == TimerSpec.Poll(old(State())) ...`).
- `ButtonDriver.ButtonDevice.Read` is the corrected read described under
  Findings: it reports a wait that a signal ends as `-ERESTARTSYS`.
  `ButtonSpec.ReadAsWritten` is `button_read` exactly as written.
- `Decimal` models the `"%d"` formatting used by `button_read`, with a parse
  that is proved to invert it.
- `Wrappers` holds `Option` and `Min`.

Modelling choices:

- The control word is a `bv32`, and enable, disable and init are bit
  operations on it.
- The load counts are 32-bit unsigned integers. For the unsigned 64-bit
  count, `count & 0xFFFFFFFF` is written as `count % 2^32` and
  `count >> 32` as `count / 2^32`. These are equal for unsigned values.
- Inside the accepted range the C computes `24 * us` with no 64-bit
  overflow. The model proves this by typing the count as a `u64`.
- Time is a natural number of jiffies. `HZ` is a constant of the button
  object.
- A GPIO sample is a boolean line level, and `gpio_get_value` maps it to 0 or 1.
- `copy_from_user` and `copy_to_user` are inputs that say whether the copy
  succeeds. For `SET_INTERVAL`, the input also gives the value that was read.
- A blocking read is one step, taken once the wait is over. The wait ends
  when an event is latched or when a signal arrives (`ReadCanReturn`).

Three behaviours of the code are worth noting:

- Out-of-range `SET_INTERVAL`: an out-of-range interval is still stored in
  `timer->interval`, and the caller gets 0. Only the registers are left
  unchanged (`TimerSpec.IoctlSetIntervalStores`). `rk_timer_resume` then
  passes that stored value to `timer_set_interval` again, where it is
  ignored once more. The model keeps this as written.
- Interrupted blocking read: as written, a blocking read that a signal
  wakes with nothing latched still consumes and returns the stale value
  (`ButtonSpec.ReadAsWritten`). The class models the corrected read. See
  Findings.
- A `copy_to_user` of zero bytes cannot fail, so a read with `count == 0`
  never returns `-EFAULT`.

## Model

| member | source | states |
|---|---|---|
| `TimerSpec.WordsRecombine` | timer/rk_timer.c:87-88 | the low word (`& 0xFFFFFFFF`) and the high word (`>> 32`) of the 64-bit count recombine to the count |
| `TimerSpec.SetIntervalOutOfRangeKeepsRegisters` | timer/rk_timer.c:78-89 | for `us < 1000` or `us > 10000000`, `timer_set_interval` leaves every register unchanged |
| `TimerSpec.SetIntervalLoadsCount` | timer/rk_timer.c:78-89 | in range: `load_cnt2 = load_cnt3 = 0`, `load_cnt1 * 2^32 + load_cnt0 = 24*us`, `load_cnt1 = 0` because `24*10^7 < 2^32`; ctlreg and stat untouched |
| `TimerSpec.EnableWordBits` | timer/rk_timer.c:97-102 | `timer_enable` sets bits 0 and 2 of ctlreg and leaves every other bit as it was |
| `TimerSpec.DisableWordBits` | timer/rk_timer.c:108-115 | `timer_disable` clears bits 0 and 2 of ctlreg and leaves every other bit as it was |
| `TimerSpec.InitWordBits` | timer/rk_timer.c:121-130 | `timer_init` clears bits 0, 1 and 2 of ctlreg and leaves every other bit as it was |
| `TimerSpec.EnableIdempotent` | timer/rk_timer.c:97-102 | enabling twice gives the same control word as enabling once |
| `TimerSpec.DisableIdempotent` | timer/rk_timer.c:108-115 | disabling twice gives the same control word as disabling once |
| `TimerSpec.DisableAfterEnable` | timer/rk_timer.c:97-115 | enable then disable equals disable alone, so bits 0 and 2 end clear |
| `TimerSpec.InitProgramsDefault` | timer/rk_timer.c:118-134 | after `timer_init`: bits 0-2 clear, other control bits kept, `interval = 10000`, `load_cnt0 = 240000`, `load_cnt1..3 = 0`, driver flags kept |
| `TimerSpec.OpenIsExclusive` | timer/rk_timer.c:136-146 | open returns 0 iff the open bit was clear, and then sets it; otherwise it returns `-EBUSY` and changes nothing |
| `TimerSpec.SecondOpenIsBusy` | timer/rk_timer.c:142-143 | of two opens in a row on a closed device, the first succeeds and the second gets `-EBUSY` |
| `TimerSpec.ReleaseThenOpenSucceeds` | timer/rk_timer.c:148-158 | release clears the open bit and bits 0 and 2 of ctlreg, so the next open succeeds; a latched tick and the interval survive |
| `TimerSpec.InterruptLatchesTick` | timer/rk_timer.c:58-71 | the interrupt writes 1 to `stat` and sets `done`, so the next poll reports `POLLIN|POLLRDNORM` |
| `TimerSpec.PollConsumesTick` | timer/rk_timer.c:160-180 | poll returns `POLLIN|POLLRDNORM` iff `done` (else 0), clears `done` and changes nothing else |
| `TimerSpec.SecondPollIsEmpty` | timer/rk_timer.c:170-176 | a second poll with no interrupt in between returns 0 |
| `TimerSpec.IoctlUnknownCommand` | timer/rk_timer.c:207-208 | an unknown command returns `-ENOTTY` and changes nothing |
| `TimerSpec.IoctlStartStop` | timer/rk_timer.c:190-195 | START returns 0 and enables (bits 0 and 2 set); STOP returns 0 and disables (bits 0 and 2 clear) |
| `TimerSpec.IoctlSetIntervalStores` | timer/rk_timer.c:196-206 | SET_INTERVAL returns 0 and stores `val` in `interval` even when out of range; the registers change only for an in-range value, which loads `24*val` |
| `TimerSpec.IoctlCopyFault` | timer/rk_timer.c:200-201 | a faulting user copy for SET_INTERVAL returns `-EFAULT` and changes nothing |
| `TimerSpec.SuspendStops` | timer/rk_timer.c:335-341 | suspend clears bits 0 and 2 and keeps the interval and the open bit |
| `TimerSpec.ResumeReprograms` | timer/rk_timer.c:343-351 | resume re-applies the stored interval to the load registers, and enables the timer iff the device is open |
| `TimerSpec.SuspendResumeRestartsOpenTimer` | timer/rk_timer.c:335-351 | an open device with an in-range interval runs again after suspend and resume, with `24*interval` loaded |
| `TimerDriver.RkTimer.constructor` | timer/rk_timer.c:283-305 | a zero-filled driver object bound to the register block, then `timer_init`: the state is `TimerSpec.Init` of the power-on registers |
| `TimerDriver.RkTimer.SetIntervalRegs` | timer/rk_timer.c:73-90 | the register block afterwards is `TimerSpec.SetInterval` of the old one; driver fields unchanged |
| `TimerDriver.RkTimer.Enable` | timer/rk_timer.c:92-103 | read-modify-write of ctlreg gives `TimerSpec.Enable` of the old state |
| `TimerDriver.RkTimer.Disable` | timer/rk_timer.c:105-116 | read-modify-write of ctlreg gives `TimerSpec.Disable` of the old state |
| `TimerDriver.RkTimer.InitHw` | timer/rk_timer.c:118-134 | the new state is `TimerSpec.Init` of the old one |
| `TimerDriver.RkTimer.Open` | timer/rk_timer.c:136-146 | result and new state are `TimerSpec.Open` of the old state; returns 0 iff the device was not open |
| `TimerDriver.RkTimer.Release` | timer/rk_timer.c:148-158 | returns 0; new state is `TimerSpec.Release` of the old state |
| `TimerDriver.RkTimer.Interrupt` | timer/rk_timer.c:58-71 | new state is `TimerSpec.Interrupt` of the old state |
| `TimerDriver.RkTimer.Poll` | timer/rk_timer.c:160-180 | mask and new state are `TimerSpec.Poll` of the old state; mask non-zero iff a tick was latched; `done` clear afterwards |
| `TimerDriver.RkTimer.Ioctl` | timer/rk_timer.c:182-212 | result and new state are `TimerSpec.Ioctl` of the old state, command and copied argument |
| `TimerDriver.RkTimer.Suspend` | timer/rk_timer.c:335-341 | returns 0; new state is `TimerSpec.Suspend` of the old state |
| `TimerDriver.RkTimer.Resume` | timer/rk_timer.c:343-351 | returns 0; new state is `TimerSpec.Resume` of the old state |
| `Decimal.Digits` | button/rk_button.c:68 | the digit text of a natural is non-empty, all decimal digits, with no leading zero |
| `Decimal.DigitsRoundTrip` | button/rk_button.c:68 | the digits of `n` denote `n` |
| `Decimal.TextRoundTrip` | button/rk_button.c:68 | parsing the `"%d"` text of any int gives that int back |
| `Decimal.BitText` | button/rk_button.c:68 | the line levels 0 and 1 print as `"0"` and `"1"`, so the read hands out one character of text |
| `ButtonSpec.KernelBuffer` | button/rk_button.c:49-68 | the zero-filled `kbuf` is exactly 8 bytes: the decimal text of `value` first, NUL bytes in every position after it |
| `ButtonSpec.ValidPreserved` | button/rk_button.c:27-72 | probe, interrupt, timer callback and read all keep `ev_press` and `value` in {0, 1} |
| `ButtonSpec.ProbeLatchIsEmpty` | button/rk_button.c:128-137 | after probe `ev_press = 0` and no timer is armed; poll reports 0; a non-blocking read returns `-EAGAIN` with no change |
| `ButtonSpec.EdgeOnlyRearms` | button/rk_button.c:36-43 | the interrupt replaces the single deadline with `now + HZ/100` and never changes `ev_press` or `value` |
| `ButtonSpec.EdgesRearmFromLast` | button/rk_button.c:41 | any train of edges leaves exactly one deadline, at the last edge's time + `HZ/100`, and the latch unchanged |
| `ButtonSpec.BurstSamplesOnce` | button/rk_button.c:27-43 | in a burst of edges each closer than `HZ/100` to the previous, the timer cannot expire before the next edge. It can expire exactly from the last edge + `HZ/100`, and then it latches the level read at that time |
| `ButtonSpec.TimeoutOverwrites` | button/rk_button.c:27-34 | the callback sets `value` to the sampled level and `ev_press = 1`; an unread earlier sample is overwritten, not queued |
| `ButtonSpec.PollReportsPending` | button/rk_button.c:74-85 | poll returns `POLLIN|POLLRDNORM` iff `ev_press`, else 0 |
| `ButtonSpec.NonblockingReadWithoutEvent` | button/rk_button.c:54-56 | a non-blocking read with `ev_press == 0` returns `-EAGAIN` and leaves the state unchanged |
| `ButtonSpec.ReadConsumesEvent` | button/rk_button.c:66-71 | a read that finds an event clears `ev_press` whether or not the copy works; it returns `min(8, count)` bytes of the zero-padded text of `value`, or `-EFAULT` when a non-empty copy fails (a zero-byte copy always succeeds and returns 0) |
| `ButtonSpec.ReadDeliversValue` | button/rk_button.c:66-71 | with room for one byte, the reader gets the whole text of the latched level (`"0"` or `"1"`), which parses back to it, followed only by NUL bytes |
| `ButtonSpec.BlockingReadAfterEvent` | button/rk_button.c:54-66 | a blocking read that finds an event latched behaves exactly as a non-blocking read |
| `ButtonSpec.SampleThenReadTwice` | button/rk_button.c:27-72 | after a sample, a read returns the sampled level; a second non-blocking read with no new sample returns `-EAGAIN` |
| `ButtonSpec.ReadAsWritten` | button/rk_button.c:45-72 | as written, a read returns `-EAGAIN` exactly when it is non-blocking and nothing is latched, and then changes nothing; every other read, one a signal woke included, clears `ev_press` and returns data or `-EFAULT`, never a cancellation |
| `ButtonSpec.InterruptedReadReturnsStaleValue` | button/rk_button.c:57-71 | as written, a blocking read that a signal wakes with nothing latched returns `min(8, count)` bytes of the text of the stale `value`, in every state |
| `ButtonSpec.InterruptedReadAfterProbe` | button/rk_button.c:57-71 | right after probe such a read returns 8 and the text `"0"` though no event was ever latched |
| `ButtonSpec.ReadReturnsDataOnlyForEvent` | button/rk_button.c:54-71 | corrected read: data is returned only for a latched event; an interrupted wait returns `-ERESTARTSYS` and changes nothing; with an event it equals the source's read |
| `ButtonDriver.ButtonDevice.constructor` | button/rk_button.c:128-137 | the new device is in the probe state: no timer armed, `ev_press = 0`, `value = 0` |
| `ButtonDriver.ButtonDevice.Interrupt` | button/rk_button.c:36-43 | new state is `ButtonSpec.Edge` of the old one at the given jiffies (only the deadline changes) |
| `ButtonDriver.ButtonDevice.TimeoutFun` | button/rk_button.c:27-34 | runs only once the armed deadline has passed; new state is `ButtonSpec.Timeout` of the old one with the sampled level |
| `ButtonDriver.ButtonDevice.Read` | button/rk_button.c:45-72 | return value, delivered bytes and new state are those of the corrected `ButtonSpec.Read` |
| `ButtonDriver.ButtonDevice.Poll` | button/rk_button.c:74-85 | the mask is `ButtonSpec.PollMask` of the state, non-zero iff `ev_press`; it has no `modifies` clause, so any number of polls leaves the next read's result unchanged |

## Findings

| source | as written | input that shows it | evidently intended | confidence | as-written member | corrected member |
|---|---|---|---|---|---|---|
| button/rk_button.c:61-66 | the return value of `wait_event_interruptible` is ignored, so a wait ended by a signal falls through, clears `ev_press` and copies the stale `value` | blocking read right after probe (`ev_press == 0`, `value == 0`), a signal arrives while it waits: it returns 8 and the text `"0"` | report `-ERESTARTSYS` and leave the latch as it is, so the event stays for a later read | high; not executed | `ButtonSpec.InterruptedReadReturnsStaleValue` | `ButtonSpec.ReadReturnsDataOnlyForEvent` |

## Left out

- `ButtonDriver.ButtonDevice.Read`: this method models the corrected read. It reports a wait that a signal ends as `-ERESTARTSYS`, where the source falls through. `ButtonSpec.ReadAsWritten` keeps the source's behaviour.
- Probe, remove, init and exit plumbing is not modelled. This covers `of_iomap`, clocks, `gpio_request`, `misc_register`, `request_irq`, `kzalloc`/`kfree` and their error paths. Those paths are resource acquisition through kernel interfaces that are not part of this model. Only the state that probe leaves is modelled (the two constructors).
- Wait queues, `wake_up`, `poll_wait` registration and spinlocks are not modelled. Each handler and file operation is one atomic step, and a blocking wait is the precondition of the read step.
- Partial user copies are not modelled. A copy either succeeds or fails; on failure no bytes are counted as delivered.
- `jiffies` wrap-around is not modelled, because time is an unbounded natural.
- `gpio_get_value` error returns are not modelled. The line level is a boolean.
- The read-only current-value registers `curr_val0/1` are not modelled. The driver never touches them.
- `rk_timer_remove` and `button_remove` are not modelled. They only release resources (`del_timer`, `free_irq`, `iounmap`, `kfree`).
- `button_open` and `button_close` are not modelled. They return 0 and do nothing.
- led/rk_led.c and led/led_app.c are not part of this model. They are a thin GPIO wrapper and a user-space demo.
