/** The outbound SMS sender: a bounded queue of messages and the state
    machine that hands the front message to the modem (text mode with
    AT+CMGF=1, the recipient with AT+CMGS, then the text and Ctrl+Z), with
    two tries per command and a bounded number of full cycles per message.
    The modem's replies and the modem lease are inputs of each call. */
module SmsManager {
  import opened Uint

  const MAX_QUEUE_SIZE: nat := 10
  const MAX_GLOBAL_RETRIES: nat := 10
  const STARTUP_DELAY_MS: nat := 60000

  datatype State = Idle | CmgfTry1 | CmgfTry2 | CmgsTry1 | CmgsTry2 | Text | Done | Error

  datatype SmsItem = SmsItem(number: string, message: string)

  // ---------------------------------------------------------------------------
  // The queue
  // ---------------------------------------------------------------------------

  /** The last `n` elements of `s` (all of them when there are fewer). */
  function Last<T>(s: seq<T>, n: nat): seq<T>
  {
    if |s| <= n then s else s[|s| - n..]
  }

  /** send: drop the oldest item when the queue is full, then append. */
  function Enqueue(queue: seq<SmsItem>, item: SmsItem): (r: seq<SmsItem>)
    ensures |r| > 0 && r[|r| - 1] == item
    ensures |queue| <= MAX_QUEUE_SIZE ==> |r| <= MAX_QUEUE_SIZE
  {
    (if |queue| >= MAX_QUEUE_SIZE then queue[1..] else queue) + [item]
  }

  /** send called on each item of `items`, in order. */
  function EnqueueAll(queue: seq<SmsItem>, items: seq<SmsItem>): seq<SmsItem>
    decreases |items|
  {
    if items == [] then queue
    else Enqueue(EnqueueAll(queue, items[..|items| - 1]), items[|items| - 1])
  }

  /** The items alert sends: one per configured number, in index order. */
  function Items(numbers: seq<string>, message: string): (r: seq<SmsItem>)
    ensures |r| == |numbers|
  {
    seq(|numbers|, i requires 0 <= i < |numbers| => SmsItem(numbers[i], message))
  }

  /** Keeping the last n after appending one more keeps the last n overall. */
  lemma LastSnoc<T>(s: seq<T>, x: T, n: nat)
    requires n > 0
    ensures Last(Last(s, n) + [x], n) == Last(s + [x], n)
  {
    if |s| > n {
      assert Last(s, n) + [x] == (s + [x])[|s| - n..];
    }
  }

  /** send keeps the newest MAX_QUEUE_SIZE items, in their order. */
  lemma EnqueueKeepsNewest(queue: seq<SmsItem>, item: SmsItem)
    requires |queue| <= MAX_QUEUE_SIZE
    ensures Enqueue(queue, item) == Last(queue + [item], MAX_QUEUE_SIZE)
  {
    if |queue| == MAX_QUEUE_SIZE {
      assert queue[1..] + [item] == (queue + [item])[1..];
    }
  }

  /** Any number of sends keeps the newest MAX_QUEUE_SIZE of all items
      offered, oldest first: the queue is a window sliding over them. */
  lemma {:induction false} EnqueueAllKeepsNewest(queue: seq<SmsItem>, items: seq<SmsItem>)
    requires |queue| <= MAX_QUEUE_SIZE
    ensures EnqueueAll(queue, items) == Last(queue + items, MAX_QUEUE_SIZE)
    decreases |items|
  {
    if items != [] {
      var init, x := items[..|items| - 1], items[|items| - 1];
      var w := EnqueueAll(queue, init);
      calc {
        EnqueueAll(queue, items);
        Enqueue(w, x);
        { EnqueueAllKeepsNewest(queue, init); EnqueueKeepsNewest(w, x); }
        Last(Last(queue + init, MAX_QUEUE_SIZE) + [x], MAX_QUEUE_SIZE);
        { LastSnoc(queue + init, x, MAX_QUEUE_SIZE); }
        Last(queue + init + [x], MAX_QUEUE_SIZE);
        { assert queue + init + [x] == queue + items; }
        Last(queue + items, MAX_QUEUE_SIZE);
      }
    }
  }

  // ---------------------------------------------------------------------------
  // The state machine on values
  // ---------------------------------------------------------------------------

  /** Everything handle changes: the queue, the state, the cycle counter,
      the three attempt counters, the welcome flag and the modem lease. */
  datatype Machine = Machine(queue: seq<SmsItem>, state: State, retries: int,
                             cmgf: int, cmgs: int, text: int,
                             startupSent: bool, acquired: bool)

  /** finishCurrentSms: drop the front item, release the lease, reset. */
  function Finish(m: Machine): Machine
  {
    Machine(if m.queue == [] then [] else m.queue[1..], Idle, 0, 0, 0, 0, m.startupSent, false)
  }

  /** restartSmsCycle: one more full cycle, or abandon after the last. */
  function Restart(m: Machine): Machine
  {
    var n := m.(retries := m.retries + 1);
    if n.retries >= MAX_GLOBAL_RETRIES then Finish(n) else n.(state := CmgfTry1)
  }

  /** The switch of handle, given the modem's answer to this step's command. */
  function Transmit(m: Machine, ok: bool): Machine
  {
    match m.state
    case Idle => m.(state := CmgfTry1, retries := 0, cmgf := 0, cmgs := 0, text := 0)
    case CmgfTry1 => var n := m.(cmgf := m.cmgf + 1); if ok then n.(state := CmgsTry1) else n.(state := CmgfTry2)
    case CmgfTry2 => var n := m.(cmgf := m.cmgf + 1); if ok then n.(state := CmgsTry1) else Restart(n)
    case CmgsTry1 => var n := m.(cmgs := m.cmgs + 1); if ok then n.(state := Text) else n.(state := CmgsTry2)
    case CmgsTry2 => var n := m.(cmgs := m.cmgs + 1); if ok then n.(state := Text) else Restart(n)
    case Text => var n := m.(text := m.text + 1); if ok then Finish(n) else Restart(n)
    case Done => m.(state := Idle)
    case Error => m.(state := Idle)
  }

  /** handle, `elapsed` milliseconds (modulo 2^32) after boot: `ready` is the
      modem's readiness, `granted` the answer to a lease request, `ok` the
      modem's answer to the command sent, `welcome` the startup text. */
  function Step(m: Machine, elapsed: u32, ready: bool, granted: bool, ok: bool,
                welcome: string, numbers: seq<string>): Machine
  {
    if elapsed < STARTUP_DELAY_MS then m
    else
      var w := if !m.startupSent && ready
               then m.(queue := EnqueueAll(m.queue, Items(numbers, welcome)), startupSent := true)
               else m;
      if w.queue == [] then w
      else if !w.acquired && !granted then w
      else Transmit(w.(acquired := true), ok)
  }

  /** The attempt counters of the current cycle, by state: each command is
      tried at most twice per cycle and the text once. */
  predicate Counted(m: Machine)
  {
    var r := m.retries;
    && m.cmgf >= 0 && m.cmgs >= 0 && m.text >= 0
    && match m.state
       case Idle => m.cmgf == 0 && m.cmgs == 0 && m.text == 0
       case CmgfTry1 => m.cmgf <= 2 * r && m.cmgs <= 2 * r && m.text <= r
       case CmgfTry2 => m.cmgf <= 2 * r + 1 && m.cmgs <= 2 * r && m.text <= r
       case CmgsTry1 => m.cmgf <= 2 * r + 2 && m.cmgs <= 2 * r && m.text <= r
       case CmgsTry2 => m.cmgf <= 2 * r + 2 && m.cmgs <= 2 * r + 1 && m.text <= r
       case Text => m.cmgf <= 2 * r + 2 && m.cmgs <= 2 * r + 2 && m.text <= r
       case Done => false
       case Error => false
  }

  /** What holds between calls: the queue is bounded, the final states are
      never left standing, fewer than MAX_GLOBAL_RETRIES cycles have been
      spent on the current message, the lease is held exactly while a
      message is in flight, and in flight there is a message. */
  predicate Inv(m: Machine)
  {
    && |m.queue| <= MAX_QUEUE_SIZE
    && 0 <= m.retries < MAX_GLOBAL_RETRIES
    && (m.state == Idle ==> m.retries == 0)
    && (m.acquired <==> m.state != Idle)
    && (m.state != Idle ==> m.queue != [])
    && Counted(m)
  }

  /** A sender as init leaves it, with `queue` left over. */
  function Initial(queue: seq<SmsItem>): Machine
  {
    Machine(queue, Idle, 0, 0, 0, 0, false, false)
  }

  lemma InitialInv(queue: seq<SmsItem>)
    requires |queue| <= MAX_QUEUE_SIZE
    ensures Inv(Initial(queue))
  {
  }

  /** handle keeps the invariant, whatever the inputs. */
  lemma StepKeepsInv(m: Machine, elapsed: u32, ready: bool, granted: bool, ok: bool,
                     welcome: string, numbers: seq<string>)
    requires Inv(m)
    ensures Inv(Step(m, elapsed, ready, granted, ok, welcome, numbers))
  {
    if elapsed >= STARTUP_DELAY_MS {
      var w := if !m.startupSent && ready
               then m.(queue := EnqueueAll(m.queue, Items(numbers, welcome)), startupSent := true)
               else m;
      if !m.startupSent && ready {
        EnqueueAllKeepsNewest(m.queue, Items(numbers, welcome));
      }
      assert Inv(w);
      if w.queue != [] && (w.acquired || granted) {
        TransmitKeepsInv(w, ok);
      }
    }
  }

  /** The attempt counters never exceed twice (text: once) the number of
      cycles, so the source's `int` counters cannot overflow. */
  lemma CountersBounded(m: Machine)
    requires Inv(m)
    ensures 0 <= m.cmgf <= 2 * MAX_GLOBAL_RETRIES && 0 <= m.cmgs <= 2 * MAX_GLOBAL_RETRIES
    ensures 0 <= m.text <= MAX_GLOBAL_RETRIES
  {
  }

  /** handle does nothing at all before the startup delay, and once the
      welcome message is out (or the modem is not ready) it does nothing
      while the queue is empty or the lease request is denied. */
  lemma StepIdles(m: Machine, elapsed: u32, ready: bool, granted: bool, ok: bool,
                  welcome: string, numbers: seq<string>)
    ensures elapsed < STARTUP_DELAY_MS ==> Step(m, elapsed, ready, granted, ok, welcome, numbers) == m
    ensures (m.startupSent || !ready) && (m.queue == [] || (!m.acquired && !granted))
            ==> Step(m, elapsed, ready, granted, ok, welcome, numbers) == m
  {
  }

  /** The welcome message is queued at most once: the flag is raised on the
      first step past the delay with a ready modem, and once it is raised
      handle never adds to the queue. */
  lemma WelcomeOnce(m: Machine, elapsed: u32, ready: bool, granted: bool, ok: bool,
                    welcome: string, numbers: seq<string>)
    ensures var t := Step(m, elapsed, ready, granted, ok, welcome, numbers);
      && (t.startupSent <==> m.startupSent || (elapsed >= STARTUP_DELAY_MS && ready))
      && (m.startupSent ==> t.queue == m.queue || (m.queue != [] && t.queue == m.queue[1..]))
  {
  }

  /** Each handle call spends at most one attempt, on one command: the
      counters stay, are all reset, or exactly one goes up by one. */
  lemma OneAttemptPerStep(m: Machine, elapsed: u32, ready: bool, granted: bool, ok: bool,
                          welcome: string, numbers: seq<string>)
    requires Inv(m)
    ensures var t := Step(m, elapsed, ready, granted, ok, welcome, numbers);
      || (t.cmgf == 0 && t.cmgs == 0 && t.text == 0)
      || (t.cmgf == m.cmgf + 1 && t.cmgs == m.cmgs && t.text == m.text)
      || (t.cmgf == m.cmgf && t.cmgs == m.cmgs + 1 && t.text == m.text)
      || (t.cmgf == m.cmgf && t.cmgs == m.cmgs && t.text == m.text + 1)
      || (t.cmgf == m.cmgf && t.cmgs == m.cmgs && t.text == m.text)
  {
  }

  /** The handshake runs in order: the modem is asked for the recipient only
      after it accepted text mode, and is given the text only after it
      prompted for it. */
  lemma HandshakeInOrder(m: Machine, elapsed: u32, ready: bool, granted: bool, ok: bool,
                         welcome: string, numbers: seq<string>)
    requires Inv(m)
    ensures var t := Step(m, elapsed, ready, granted, ok, welcome, numbers);
      && (t.state == CmgsTry1 && m.state != CmgsTry1 ==> ok && m.state in {CmgfTry1, CmgfTry2})
      && (t.state == Text && m.state != Text ==> ok && m.state in {CmgsTry1, CmgsTry2})
      && (t.state == CmgfTry2 ==> m.state in {CmgfTry1, CmgfTry2})
      && (t.state == CmgsTry2 ==> m.state in {CmgsTry1, CmgsTry2})
  {
  }

  /** How many more transmit steps the front message can take at most:
      five per remaining cycle, counted down within the cycle. */
  function Budget(m: Machine): nat
    requires Inv(m)
  {
    var left := 5 * (MAX_GLOBAL_RETRIES - 1 - m.retries);
    match m.state
    case Idle => 5 * MAX_GLOBAL_RETRIES + 1
    case CmgfTry1 => left + 5
    case CmgfTry2 => left + 4
    case CmgsTry1 => left + 3
    case CmgsTry2 => left + 2
    case Text => left + 1
  }

  /** Every transmit step either finishes the front message, which happens
      only on a confirmed text or when the last cycle fails, or keeps the
      queue and strictly lowers the budget; so each message leaves the
      queue after at most 5 * MAX_GLOBAL_RETRIES + 1 such steps. */
  lemma TransmitProgress(m: Machine, ok: bool)
    requires Inv(m) && m.queue != []
    ensures var t := Transmit(m.(acquired := true), ok);
      && Budget(m) <= 5 * MAX_GLOBAL_RETRIES + 1
      && ((t.state == Idle && t.queue == m.queue[1..] && !t.acquired
           && (ok ==> m.state == Text)
           && (!ok ==> m.retries == MAX_GLOBAL_RETRIES - 1))
          || (Inv(t) && t.queue == m.queue && Budget(t) < Budget(m)))
  {
    TransmitKeepsInv(m, ok);
  }

  /** send on a full queue evicts the front item even while it is in
      flight: the handshake carries on with the next item, so after the
      recipient of the evicted item was given (state Text) the next item's
      text goes to that recipient, and a confirmed text then removes the
      next item as well; the evicted item is never sent. */
  lemma SendWhileBusyDropsInFlight(m: Machine, x: SmsItem)
    requires Inv(m) && m.state != Idle && |m.queue| == MAX_QUEUE_SIZE
    ensures Enqueue(m.queue, x) == m.queue[1..] + [x]
    ensures Enqueue(m.queue, x)[0] == m.queue[1]
    ensures m.state == Text ==> Transmit(m.(queue := Enqueue(m.queue, x)), true).queue == m.queue[2..] + [x]
  {
    assert (m.queue[1..] + [x])[1..] == m.queue[2..] + [x];
  }

  /** A transmit step on a sender holding a message keeps the invariant. */
  lemma TransmitKeepsInv(m: Machine, ok: bool)
    requires Inv(m) && m.queue != []
    ensures Inv(Transmit(m.(acquired := true), ok))
  {
    match m.state
    case CmgfTry1 => CmgfKeepsInv(m, ok);
    case CmgfTry2 => CmgfKeepsInv(m, ok);
    case CmgsTry1 => CmgsKeepsInv(m, ok);
    case CmgsTry2 => CmgsKeepsInv(m, ok);
    case Text => if !ok { RestartProgress(m.(acquired := true, text := m.text + 1)); }
    case Idle =>
  }

  lemma CmgfKeepsInv(m: Machine, ok: bool)
    requires Inv(m) && m.queue != [] && m.state in {CmgfTry1, CmgfTry2}
    ensures Inv(Transmit(m.(acquired := true), ok))
  {
    if m.state == CmgfTry2 && !ok { RestartProgress(m.(acquired := true, cmgf := m.cmgf + 1)); }
  }

  lemma CmgsKeepsInv(m: Machine, ok: bool)
    requires Inv(m) && m.queue != [] && m.state in {CmgsTry1, CmgsTry2}
    ensures Inv(Transmit(m.(acquired := true), ok))
  {
    if m.state == CmgsTry2 && !ok { RestartProgress(m.(acquired := true, cmgs := m.cmgs + 1)); }
  }

  /** restartSmsCycle at the end of a failed cycle (counters of the cycle
      already spent): a new cycle with a lower budget, or abandon. */
  lemma RestartProgress(n: Machine)
    requires n.state in {CmgfTry2, CmgsTry2, Text} && n.acquired && n.queue != []
    requires |n.queue| <= MAX_QUEUE_SIZE && 0 <= n.retries < MAX_GLOBAL_RETRIES
    requires n.cmgf >= 0 && n.cmgs >= 0 && n.text >= 0
    requires n.cmgf <= 2 * n.retries + 2 && n.cmgs <= 2 * n.retries + 2 && n.text <= n.retries + 1
    ensures var t := Restart(n);
      && Inv(t)
      && ((t.state == Idle && t.queue == n.queue[1..] && !t.acquired && n.retries == MAX_GLOBAL_RETRIES - 1)
          || (t.queue == n.queue && t.state == CmgfTry1 && t.retries == n.retries + 1))
  {
  }

  // ---------------------------------------------------------------------------
  // The sender
  // ---------------------------------------------------------------------------

  class Sender {
    /** The configured recipients (SMS_NUMBERS). */
    const numbers: seq<string>
    var queue: seq<SmsItem>
    var currentState: State
    var globalRetryCount: int
    var bootTime: u32
    var startupSmsSent: bool
    var modemAcquired: bool
    var cmgfAttempts: int
    var cmgsAttempts: int
    var textAttempts: int

    function Snap(): Machine
      reads this
    {
      Machine(queue, currentState, globalRetryCount, cmgfAttempts, cmgsAttempts, textAttempts,
              startupSmsSent, modemAcquired)
    }

    /** The static initialisers followed by init at time `now`. */
    constructor (numbers: seq<string>, now: u32)
      ensures this.numbers == numbers && bootTime == now
      ensures Snap() == Initial([]) && Inv(Snap())
    {
      this.numbers := numbers;
      queue := [];
      currentState, globalRetryCount := Idle, 0;
      bootTime := now;
      startupSmsSent, modemAcquired := false, false;
      cmgfAttempts, cmgsAttempts, textAttempts := 0, 0, 0;
    }

    /** init at time `now`: everything but the queue is reset. */
    method Init(now: u32)
      modifies this
      ensures bootTime == now && Snap() == Initial(old(queue))
    {
      currentState := Idle;
      globalRetryCount := 0;
      bootTime := now;
      startupSmsSent := false;
      modemAcquired := false;
      cmgfAttempts, cmgsAttempts, textAttempts := 0, 0, 0;
    }

    method Send(number: string, message: string)
      modifies this`queue
      ensures queue == Enqueue(old(queue), SmsItem(number, message))
    {
      if |queue| >= MAX_QUEUE_SIZE {
        queue := queue[1..];
      }
      queue := queue + [SmsItem(number, message)];
    }

    /** alert: send `message` to every configured number. */
    method Alert(message: string)
      modifies this`queue
      ensures queue == EnqueueAll(old(queue), Items(numbers, message))
      ensures |old(queue)| <= MAX_QUEUE_SIZE
              ==> queue == Last(old(queue) + Items(numbers, message), MAX_QUEUE_SIZE)
    {
      var i := 0;
      while i < |numbers|
        invariant 0 <= i <= |numbers|
        invariant queue == EnqueueAll(old(queue), Items(numbers, message)[..i])
      {
        assert Items(numbers, message)[..i + 1][..i] == Items(numbers, message)[..i];
        Send(numbers[i], message);
        i := i + 1;
      }
      assert Items(numbers, message)[..i] == Items(numbers, message);
      if |old(queue)| <= MAX_QUEUE_SIZE {
        EnqueueAllKeepsNewest(old(queue), Items(numbers, message));
      }
    }

    /** sendStartupSms: queue the welcome text for everyone, once. */
    method SendStartupSms(welcome: string)
      modifies this`queue, this`startupSmsSent
      ensures queue == EnqueueAll(old(queue), Items(numbers, welcome)) && startupSmsSent
    {
      Alert(welcome);
      startupSmsSent := true;
    }

    method FinishCurrentSms()
      modifies this
      ensures Snap() == Finish(old(Snap())) && bootTime == old(bootTime)
    {
      if queue != [] {
        queue := queue[1..];
      }
      if modemAcquired {
        modemAcquired := false;
      }
      currentState := Idle;
      globalRetryCount := 0;
      cmgfAttempts, cmgsAttempts, textAttempts := 0, 0, 0;
    }

    method RestartSmsCycle()
      modifies this
      ensures Snap() == Restart(old(Snap())) && bootTime == old(bootTime)
    {
      globalRetryCount := globalRetryCount + 1;
      if globalRetryCount >= MAX_GLOBAL_RETRIES {
        FinishCurrentSms();
      } else {
        currentState := CmgfTry1;
      }
    }

    /** handle at time `now`; see Step for the meaning of the inputs. */
    method Handle(now: u32, ready: bool, granted: bool, ok: bool, welcome: string)
      modifies this
      ensures bootTime == old(bootTime)
      ensures Snap() == Step(old(Snap()), Sub32(now, bootTime), ready, granted, ok, welcome, numbers)
    {
      if Sub32(now, bootTime) < STARTUP_DELAY_MS {
        return;
      }
      if !startupSmsSent && ready {
        SendStartupSms(welcome);
      }
      if queue == [] {
        return;
      }
      if !modemAcquired {
        if !granted {
          return;
        }
        modemAcquired := true;
      }
      TransmitStep(ok);
    }

    /** The switch of handle: one command to the modem and its answer `ok`. */
    method TransmitStep(ok: bool)
      modifies this
      ensures bootTime == old(bootTime) && Snap() == Transmit(old(Snap()), ok)
    {
      match currentState {
        case Idle =>
          currentState := CmgfTry1;
          globalRetryCount := 0;
          cmgfAttempts, cmgsAttempts, textAttempts := 0, 0, 0;
        case CmgfTry1 =>
          cmgfAttempts := cmgfAttempts + 1;
          currentState := if ok then CmgsTry1 else CmgfTry2;
        case CmgfTry2 =>
          cmgfAttempts := cmgfAttempts + 1;
          if ok {
            currentState := CmgsTry1;
          } else {
            RestartSmsCycle();
          }
        case CmgsTry1 =>
          cmgsAttempts := cmgsAttempts + 1;
          currentState := if ok then Text else CmgsTry2;
        case CmgsTry2 =>
          cmgsAttempts := cmgsAttempts + 1;
          if ok {
            currentState := Text;
          } else {
            RestartSmsCycle();
          }
        case Text =>
          textAttempts := textAttempts + 1;
          if ok {
            FinishCurrentSms();
          } else {
            RestartSmsCycle();
          }
        case Done =>
          currentState := Idle;
        case Error =>
          currentState := Idle;
      }
    }

    function QueueSize(): (n: nat)
      reads this
      ensures n == |queue|
      ensures Inv(Snap()) ==> n <= MAX_QUEUE_SIZE
    {
      |queue|
    }

    /** isBusy: a message is in flight. Between calls that is exactly when
        the modem lease is held, and then the queue is not empty. */
    function IsBusy(): (b: bool)
      reads this
      ensures b <==> currentState != Idle
      ensures Inv(Snap()) ==> (b <==> modemAcquired) && (b ==> queue != [])
    {
      currentState != Idle
    }
  }
}
