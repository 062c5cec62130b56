# Foo-Bar countdown on an ESP32, modelled in Dafny

The firmware in `main/main.cpp` reads numbers from a serial port. It queues
them in a FreeRTOS queue of capacity `QUEUE_LENGTH` (8), and for each queued
number it counts down to 0. Two worker tasks take turns: `foo_task` writes
`Foo <n>` for even counts and `bar_task` writes `Bar <n>` for odd counts. Each
line is tagged `Prime` when the count is prime. An idle task coordinates the
two through an event flag and a counting semaphore. Input 0 restarts the
device. Input that arrives while the queue is full is answered with
`Currently full`.

The model has five modules:

- `Primality` (`primality.dfy`): the trial-division test `is_prime` as a
  method with its loop. It is proved equal to mathematical primality over
  unbounded naturals. A lemma shows that the square-root bound of the loop is
  enough, in both directions.
- `Uint32Primality` (`uint32_primality.dfy`): the same loop with its guard
  `i * i <= n` evaluated in `uint32_t` arithmetic, as the code is written (see
  Findings).
- `Lines` (`lines.dfy`): the lines written to UART 2 as a datatype, their exact
  text (`"Foo %lu Prime\n"`, `"Received %lu\n"`, ...), and a parser. It proves
  that the text of a line determines the line and that the parser and the
  formatter are inverse.
- `Protocol` (`protocol.dfy`): the four tasks as a state machine over the
  shared state. The state is the semaphore count, `EVENT_FLAG_1`, the inbox
  queue and the output log. Each loop iteration of a task is one atomic step:
  `Input` (uart_event_task), `Coordinate` (idleTask), `EvenStep` (foo_task)
  and `OddStep` (bar_task). An invariant holds in every state reachable under
  any interleaving of steps. Its "ledger" part says: the worker lines written
  since the last start, followed by the lines still owed, are exactly the
  countdowns of the accepted values, in order of acceptance.
- `Tasks` (`tasks.dfy`): a class `FooBar` whose fields are that shared state.
  Each method is one loop iteration of a task and updates the fields in
  place. Each is proved to perform the corresponding `Protocol` step and to
  keep the invariant.

## Model

| member | source | states |
|---|---|---|
| Primality.IsPrime | main/main.cpp:89-95 | returns true exactly when n is prime; 0 and 1 give false |
| Primality.TrialDivisionIsPrimality | main/main.cpp:91-92 | for n >= 2: no divisor i with i * i <= n holds if and only if n is prime, so the loop bound is sufficient |
| Primality.PrimeExamples | main/main.cpp:89-95 | 0, 1 and 18 are not prime; 2 and 17 are |
| Uint32Primality.IsPrimeAsWritten | main/main.cpp:89-95 | with the guard computed modulo 2^32: exact for every n below 65535^2 (so for every count up to MAX_NUM = 2^24), a true answer always implies primality, but every n >= 2^32 - 5 is reported not prime |
| Uint32Primality.WrappedSquare | main/main.cpp:91 | i * i in uint32_t arithmetic equals the true square for every i <= 65535 |
| Uint32Primality.WrappedSquareBelowTop | main/main.cpp:91 | i * i reduced modulo 2^32 never exceeds 2^32 - 5, because squares are 0, 1, 4 or 9 modulo 16 |
| Lines.Classify | main/main.cpp:175-186 | the line a worker writes for count c is a worker line carrying c: Foo exactly when c is even, tagged Prime exactly when c is prime |
| Lines.Decimal | main/main.cpp:183 | the %lu numeral of n: at least one digit, digits only, no leading zero |
| Lines.Render | main/main.cpp:182-186 | the text written for a line ends with a newline; ParseRender and RenderParse prove the text determines the line |
| Lines.DecimalRoundTrip | main/main.cpp:183 | the digits printed by %lu for n denote n |
| Lines.CanonicalRoundTrip | main/main.cpp:291 | every numeral without leading zeros is the %lu text of the number it denotes |
| Lines.ParseRender | main/main.cpp:182-186 | parsing the text of any line gives back that line, value and Prime tag included, so distinct lines have distinct text |
| Lines.RenderParse | main/main.cpp:236-240 | whatever text the parser accepts is exactly the text of the line it returns |
| Lines.RenderAllLines | main/main.cpp:187 | the text of a sequence of lines is the text of each line, in order |
| Lines.RenderExamples | main/main.cpp:182-186 | the exact text of Bar 5 Prime, Foo 4, Bar 3 Prime, Foo 2 Prime, Bar 1 and Foo 0 |
| Protocol.GateDiscipline | main/main.cpp:174-175 | the two workers are never enabled together; no worker acts while the flag is clear; only the coordinator raises the flag, at the oldest inbox value; only foo_task at 0 or a restart lowers it; a worker lowers the count by exactly one, never below 0 |
| Protocol.CountdownDescends | main/main.cpp:172-201 | a countdown from v writes v + 1 lines and line k classifies v - k: descending to 0, no gaps, no repeats |
| Protocol.WorkerStepPaysFirst | main/main.cpp:224-246 | a worker step from a running state writes the first line still owed and leaves the rest owed and the inbox untouched |
| Protocol.CoordinateKeepsFuture | main/main.cpp:127-135 | the coordinator moves the oldest queued countdown into the running one without changing what is owed or the log |
| Protocol.Dispatch | main/main.cpp:188-195 | from a running state at count v: for k <= v steps the flag stays up at count v - k; after v + 1 steps lines v..0 are written, the flag is clear and the count is 0 |
| Protocol.DispatchOldest | main/main.cpp:128-134 | from idle, the oldest inbox value v is counted down in v + 1 worker steps and the rest of the inbox waits |
| Protocol.InitInv | main/main.cpp:121-123 | the start-up state (empty queue, count 0, flag clear, prompt written) satisfies the invariant |
| Protocol.Restart | main/main.cpp:296 | a restart returns to the start-up state, with the prompt written again after the lines already written |
| Protocol.Input | main/main.cpp:282-297 | every input writes exactly one line after the earlier ones; a nonzero input leaves the count and flag alone, keeps the queued entries in order and adds at most one at the tail, never beyond QUEUE_LENGTH |
| Protocol.Coordinate | main/main.cpp:127-135 | an idleTask iteration writes nothing; it either changes nothing or, with the flag clear, raises it and takes the head of the inbox as the count, the rest staying queued |
| Protocol.EvenStep | main/main.cpp:172-201 | a foo_task iteration leaves the inbox alone, changes nothing unless the flag is up at an even count, then writes exactly that count's classified line; the count stays or drops by one |
| Protocol.OddStep | main/main.cpp:224-246 | a bar_task iteration leaves the inbox and flag alone, changes nothing unless the flag is up at an odd count, then drops the count by one and writes that count's classified line |
| Protocol.InputInv | main/main.cpp:282-297 | an input keeps the invariant: inbox within capacity, positive entries, idle count 0 and the ledger |
| Protocol.CoordinateInv | main/main.cpp:126-143 | an idleTask iteration keeps the invariant |
| Protocol.WorkerInv | main/main.cpp:172-201 | a foo_task or bar_task iteration keeps the invariant |
| Protocol.StepInv | main/main.cpp:126-297 | every step of every task keeps the invariant |
| Protocol.Reachable | main/main.cpp:327 | every state reachable from start-up under any interleaving satisfies the invariant; the inbox never holds more than QUEUE_LENGTH values |
| Protocol.DrainPaysAll | main/main.cpp:126-246 | left to run without input, all four tasks write exactly the lines the state owes and come to rest idle with an empty inbox |
| Protocol.AllAcceptedCountedDown | main/main.cpp:126-135 | once drained, the worker lines since the last start are exactly the countdowns of all values accepted since then, in order |
| Protocol.CountdownFive | main/main.cpp:172-246 | the countdown from 5 is Bar 5 Prime, Foo 4, Bar 3 Prime, Foo 2 Prime, Bar 1, Foo 0 |
| Protocol.CountdownFiveText | main/main.cpp:182-186 | the text of that countdown on the serial port, line by line |
| Tasks.FooBar.constructor | main/main.cpp:121-123 | empty queue, semaphore count 0, flag clear, prompt written; the invariant holds |
| Tasks.FooBar.HandleInput | main/main.cpp:282-297 | performs the Input step: restart on 0, Currently full on a full inbox, otherwise queue and acknowledge; keeps the invariant |
| Tasks.FooBar.IdleIteration | main/main.cpp:126-143 | performs the Coordinate step: with the flag clear and a non-empty inbox, raise the flag and set the count to the oldest entry, which is removed |
| Tasks.FooBar.FooIteration | main/main.cpp:172-201 | performs the EvenStep: for a running even count c, write Foo c (Prime when prime), then decrement, or clear the flag at 0 |
| Tasks.FooBar.BarIteration | main/main.cpp:224-246 | performs the OddStep: for a running odd count c, decrement and write Bar c (Prime when prime) |

## Left out

- FreeRTOS scheduling, priorities, core pinning and every `vTaskDelay`: each
  loop iteration of a task is one atomic step. Real preemption inside an
  iteration is not modelled. One example is the window in idleTask between
  raising the flag and recreating the semaphore.
- The console output through `std::cout` (`IDLE = ...`, the duplicate `Foo`
  and `Bar` lines). Only the lines written to UART 2 are modelled.
- The UART driver, its event queue and `uart_read_bytes`. The model starts
  from the number already parsed. `std::atoi` and its conversion to
  `uint32_t` are not modelled.
- Tasks.FooBar.HandleInput: the input is an unbounded natural, not the
  `uint32_t` that `atoi` yields, because the conversion is not modelled.
- The byte counts passed to `uart_write_bytes` are not modelled.
  `"Currently full\n"` is written with length 16 and the 20-character prompt
  with length 22, which sends bytes past the end of the text. The model keeps
  the text itself.
- `MAX_NUM`, the semaphore's maximum count: counts are unbounded naturals.
  Uint32Primality.IsPrimeAsWritten shows that is_prime as written is exact
  for every count up to `MAX_NUM`.
  The deletion and recreation of the semaphore is modelled only as setting
  the count.
- Primality.IsPrime: works over unbounded naturals. The `uint32_t`
  wrap-around of `i * i` is modelled separately in Uint32Primality.
- The failure path of `xQueueSend`. It cannot fail after the free-space check
  in a single step, because the queue has room.
- `esp_restart` as a process action: it is modelled as the return to the
  initial state, with the prompt written again. The log of lines already
  written is kept, because it is what the serial port has seen.
- LED/GPIO set-up and the UART configuration in `app_main`.

## Findings

| source | as written | input that shows it | evidently intended | confidence | as-written member | corrected member |
|---|---|---|---|---|---|---|
| main/main.cpp:91 | the guard `i * i <= n` is computed in `uint32_t` and wraps at 2^32, so for n >= 2^32 - 5 it never becomes false; for a prime n in that range the loop runs until `i == n`, where `n % i == 0` (a composite n still stops at its smallest divisor). foo_task and bar_task never hold a count above MAX_NUM = 2^24 (main/main.cpp:48, 134), below 65535^2 where the code is exact, so the defect does not show in this program's output | n = 4294967291 = 2^32 - 5, the largest 32-bit prime, is reported not prime | true exactly for primes, for every `uint32_t` n | not executed; the primality of 4294967291 is a known fact that is not proved in the model | Uint32Primality.IsPrimeAsWritten | Primality.IsPrime |
