/** The four FreeRTOS tasks of main/main.cpp over their shared state, held in
    one object whose fields all four tasks update in place. Each method is one
    iteration of a task's endless loop, taken as an atomic step, and is proved
    to perform the corresponding step of the Protocol state machine. */
module Tasks {
  import opened Primality
  import opened Lines
  import opened Protocol

  class FooBar {
    var count: nat          // uxSemaphoreGetCount(xSemaphore)
    var running: bool       // EVENT_FLAG_1 of eventGroup
    var inbox: seq<nat>     // xQueue, oldest entry first
    var log: seq<Line>      // lines written to UART 2

    /** The shared state as a Protocol state. */
    function Abs(): State
      reads this
    {
      State(count, running, inbox, log)
    }

    ghost predicate Valid()
      reads this
    {
      Inv(Abs())
    }

    /** app_main creates the empty queue; idleTask creates the semaphore with
        count 0 and the event group with the flag clear, and writes the prompt. */
    constructor ()
      ensures Valid()
      ensures count == 0 && !running && inbox == [] && log == [Prompt]
    {
      count, running, inbox, log := 0, false, [], [Prompt];
      new;
      InitInv();
    }

    /** uart_event_task, once a number n has been read and parsed: 0 restarts
        the device, a full inbox is reported, anything else is queued and
        acknowledged. */
    method HandleInput(n: nat)
      requires Valid()
      modifies this
      ensures Valid()
      ensures Abs() == Input(old(Abs()), n)
      ensures n == 0 ==> count == 0 && !running && inbox == [] && log == old(log) + [Prompt]
      ensures n != 0 && |old(inbox)| == QueueLength ==>
        count == old(count) && running == old(running) && inbox == old(inbox) &&
        log == old(log) + [CurrentlyFull]
      ensures n != 0 && |old(inbox)| < QueueLength ==>
        count == old(count) && running == old(running) && inbox == old(inbox) + [n] &&
        log == old(log) + [Received(n)]
    {
      InputInv(Abs(), n);
      if n != 0 {
        if QueueLength - |inbox| == 0 {
          log := log + [CurrentlyFull];
        } else {
          inbox := inbox + [n];
          log := log + [Received(n)];
        }
      } else {
        // esp_restart(): every task starts over from its initial state
        count, running, inbox := 0, false, [];
        log := log + [Prompt];
      }
    }

    /** One iteration of idleTask: with the flag clear and the queue not
        empty, raise the flag, receive the oldest value and recreate the
        semaphore with that count. */
    method IdleIteration()
      requires Valid()
      modifies this
      ensures Valid()
      ensures Abs() == Coordinate(old(Abs()))
      ensures log == old(log)
      ensures !old(running) && old(inbox) != [] ==>
        running && count == old(inbox)[0] && inbox == old(inbox)[1..]
      ensures old(running) || old(inbox) == [] ==>
        running == old(running) && count == old(count) && inbox == old(inbox)
    {
      CoordinateInv(Abs());
      if !running {
        if QueueLength - |inbox| < 8 {
          running := true;
          var received := inbox[0];
          inbox := inbox[1..];
          count := received;
        }
      }
    }

    /** One iteration of foo_task: for an even count, write Foo and the count,
        with Prime when it is prime; then take the semaphore, or at 0 clear
        the flag. */
    method FooIteration()
      requires Valid()
      modifies this
      ensures Valid()
      ensures Abs() == EvenStep(old(Abs()))
      ensures inbox == old(inbox)
      ensures old(running) && old(count) % 2 == 0 ==>
        log == old(log) + [Foo(old(count), Prime(old(count)))]
      ensures old(running) && old(count) % 2 == 0 && old(count) != 0 ==>
        running && count == old(count) - 1
      ensures old(running) && old(count) % 2 == 0 && old(count) == 0 ==>
        !running && count == 0
      ensures !old(running) || old(count) % 2 != 0 ==>
        running == old(running) && count == old(count) && log == old(log)
    {
      ghost var s := Abs();
      WorkerInv(s, Even);
      var c := count;
      if running {
        if c % 2 == 0 {
          var prime := IsPrime(c);
          var line := if prime then Foo(c, true) else Foo(c, false);
          log := log + [line];
          if c != 0 {
            count := count - 1;
          } else {
            if running {
              running := false;
            }
          }
        }
      }
      assert Abs() == Apply(s, Even);
    }

    /** One iteration of bar_task: for an odd count, write Bar and the count,
        with Prime when it is prime, and take the semaphore. */
    method BarIteration()
      requires Valid()
      modifies this
      ensures Valid()
      ensures Abs() == OddStep(old(Abs()))
      ensures inbox == old(inbox) && running == old(running)
      ensures old(running) && old(count) % 2 == 1 ==>
        count == old(count) - 1 && log == old(log) + [Bar(old(count), Prime(old(count)))]
      ensures !old(running) || old(count) % 2 != 1 ==>
        count == old(count) && log == old(log)
    {
      ghost var s := Abs();
      WorkerInv(s, Odd);
      var c := count;
      if running {
        if c % 2 == 1 {
          count := count - 1;
          var prime := IsPrime(c);
          var line := if prime then Bar(c, true) else Bar(c, false);
          log := log + [line];
        }
      }
      assert Abs() == Apply(s, Odd);
    }
  }
}
