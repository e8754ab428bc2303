/**
 * The device object `SmartAirPurifier` (upurifier.py:28-346): the PWM output,
 * the log of MQTT publications, the button variables and reconnect budget of
 * `main`, and the configuration dictionary, with the callbacks and the body
 * of the polling loop that change them.
 */
module Purifier {
  import opened Wrappers
  import opened Decimal
  import opened Modes
  import opened Topics
  import opened Reconciler
  import opened Buttons
  import opened Request

  /** The default reconnect budget of `main`. */
  const INITIAL_ATTEMPTS := 5

  /** What `mqtt_client.check_msg()` does on one tick. */
  datatype Poll =
    | Broken                                 // the connection is lost: check_msg raises
    | Quiet                                  // no message is waiting
    | Incoming(topic: string, msg: Payload)  // one message, handed to mqtt_callback

  /** `check_msg` raises: the connection failed, or the callback let an exception escape. */
  predicate PollFails(t: TopicSet, poll: Poll) {
    poll.Broken? || (poll.Incoming? && Respond(t, poll.topic, poll.msg).Raise?)
  }

  /** The output after the message part of a tick. */
  function AfterPoll(t: TopicSet, o: Output, poll: Poll): Output {
    if poll.Incoming? then Perform(o, Respond(t, poll.topic, poll.msg)) else o
  }

  /** The inputs of one tick: the poll, whether `connect(False)` would succeed, and the pins. */
  datatype TickInput = TickInput(poll: Poll, reconnectOk: bool, reading: Reading)

  /** What a tick works on: the output with its log, the button variables and the budget. */
  datatype Machine = Machine(out: Output, btnState: int, btnPrev: int, attempts: int)

  /** The machine after a tick, and whether the tick ended `main`. */
  datatype Outcome = Outcome(machine: Machine, halted: bool)

  /**
   * One iteration of the `while True` loop of `main` (upurifier.py:317-346):
   * the poll with its reconnect, then, unless the reconnect raised, the buttons.
   */
  function TickStep(t: TopicSet, layout: Layout, m: Machine, input: TickInput): (r: Outcome)
    requires 0 <= m.btnState <= 3
    ensures 0 <= r.machine.btnState <= 3
    ensures r.halted <==> PollFails(t, input.poll) && m.attempts > 0 && !input.reconnectOk
    ensures m.attempts - 1 <= r.machine.attempts <= m.attempts
    ensures m.out.log <= r.machine.out.log
  {
    var failed := PollFails(t, input.poll);
    var mid := AfterPoll(t, m.out, input.poll);
    if failed && m.attempts > 0 && !input.reconnectOk then
      Outcome(Machine(mid, m.btnState, m.btnPrev, m.attempts), true)
    else
      var attempts := if failed && m.attempts > 0 then m.attempts - 1 else m.attempts;
      var s := StepButtons(layout, m.btnState, m.btnPrev, input.reading);
      var out := if s.fire then Perform(mid, Press(t, s.state)) else mid;
      Outcome(Machine(out, s.state, s.prev, attempts), false)
  }

  /** How a run of ticks ended: how many ticks ran, whether the last one ended `main`, and the machine after them. */
  datatype RunResult = RunResult(done: nat, halted: bool, machine: Machine)

  /**
   * The `while True` loop of `main` over the given ticks: tick after tick
   * until one ends `main` or the ticks run out.
   */
  function RunFrom(t: TopicSet, layout: Layout, m: Machine, inputs: seq<TickInput>): (r: RunResult)
    requires 0 <= m.btnState <= 3
    ensures r.done <= |inputs| && (r.halted ==> r.done > 0) && (!r.halted ==> r.done == |inputs|)
    ensures 0 <= r.machine.btnState <= 3
    ensures m.out.log <= r.machine.out.log
    decreases |inputs|
  {
    if inputs == [] then RunResult(0, false, m)
    else
      var next := TickStep(t, layout, m, inputs[0]);
      if next.halted then RunResult(1, true, next.machine)
      else
        var rest := RunFrom(t, layout, next.machine, inputs[1..]);
        RunResult(rest.done + 1, rest.halted, rest.machine)
  }

  /** The run from tick k on: that tick, then, unless it ended `main`, the rest. */
  lemma RunFromAt(t: TopicSet, layout: Layout, m: Machine, inputs: seq<TickInput>, k: nat)
    requires 0 <= m.btnState <= 3 && k < |inputs|
    ensures var next := TickStep(t, layout, m, inputs[k]);
      var rest := RunFrom(t, layout, next.machine, inputs[k + 1..]);
      RunFrom(t, layout, m, inputs[k..]) ==
        if next.halted then RunResult(1, true, next.machine)
        else RunResult(rest.done + 1, rest.halted, rest.machine)
  {
    assert inputs[k..][0] == inputs[k];
    assert inputs[k..][1..] == inputs[k + 1..];
  }

  /** A run whose first tick does not end `main` is that tick followed by the run of the rest. */
  lemma RunFromCons(t: TopicSet, layout: Layout, m: Machine, inputs: seq<TickInput>, next: Outcome)
    requires 0 <= m.btnState <= 3 && inputs != [] && next == TickStep(t, layout, m, inputs[0]) && !next.halted
    ensures var rest := RunFrom(t, layout, next.machine, inputs[1..]);
      RunFrom(t, layout, m, inputs) == RunResult(rest.done + 1, rest.halted, rest.machine)
  {
  }

  /**
   * If the run halted, the ticks before its last one ran without halting,
   * and the last one is the tick whose reconnect raised.
   */
  ghost predicate HaltsAtLast(t: TopicSet, layout: Layout, m: Machine, inputs: seq<TickInput>)
    requires 0 <= m.btnState <= 3
  {
    var r := RunFrom(t, layout, m, inputs);
    r.halted ==>
      var before := RunFrom(t, layout, m, inputs[..r.done - 1]);
      && !before.halted && before.done == r.done - 1
      && TickStep(t, layout, before.machine, inputs[r.done - 1]) == Outcome(r.machine, true)
  }

  /** A run that halted ran its other ticks without halting, and its last tick is the one whose reconnect raised. */
  lemma {:induction false} RunHaltsAtLast(t: TopicSet, layout: Layout, m: Machine, inputs: seq<TickInput>)
    requires 0 <= m.btnState <= 3
    ensures HaltsAtLast(t, layout, m, inputs)
    decreases |inputs|
  {
    if inputs != [] {
      var next := TickStep(t, layout, m, inputs[0]);
      if next.halted {
        HaltsAtFirst(t, layout, m, inputs);
      } else {
        RunHaltsAtLast(t, layout, next.machine, inputs[1..]);
        HaltsLater(t, layout, m, inputs, next);
      }
    }
  }

  lemma HaltsAtFirst(t: TopicSet, layout: Layout, m: Machine, inputs: seq<TickInput>)
    requires 0 <= m.btnState <= 3 && inputs != [] && TickStep(t, layout, m, inputs[0]).halted
    ensures HaltsAtLast(t, layout, m, inputs)
  {
    assert RunFrom(t, layout, m, inputs).done == 1;
    assert inputs[..0] == [];
  }

  lemma HaltsLater(t: TopicSet, layout: Layout, m: Machine, inputs: seq<TickInput>, next: Outcome)
    requires 0 <= m.btnState <= 3 && inputs != [] && next == TickStep(t, layout, m, inputs[0]) && !next.halted
    requires HaltsAtLast(t, layout, next.machine, inputs[1..])
    ensures HaltsAtLast(t, layout, m, inputs)
  {
    var rest := inputs[1..];
    RunFromCons(t, layout, m, inputs, next);
    var r := RunFrom(t, layout, m, inputs);
    var tail := RunFrom(t, layout, next.machine, rest);
    if tail.halted {
      var pre := inputs[..r.done - 1];
      assert pre[1..] == rest[..tail.done - 1];
      assert pre != [] && pre[0] == inputs[0];
      RunFromCons(t, layout, m, pre, next);
      assert inputs[r.done - 1] == rest[tail.done - 1];
    }
  }

  /** Every tick polls nothing and reads the single button held. */
  predicate HeldQuiet(inputs: seq<TickInput>) {
    forall i :: 0 <= i < |inputs| ==> inputs[i].poll == Quiet && inputs[i].reading.btn
  }

  /**
   * On the one-button device, ticks with nothing to poll and the button held
   * all run; together they move the state round the cycle of four, and the
   * preset reported last is that of the state reached.
   */
  lemma {:induction false} HeldRun(t: TopicSet, m: Machine, inputs: seq<TickInput>)
    requires 0 <= m.btnState <= 3 && HeldQuiet(inputs)
    ensures var r := RunFrom(t, OneButton, m, inputs);
      && !r.halted && r.done == |inputs|
      && r.machine.btnState == Cycle(m.btnState, |inputs|)
      && (|inputs| > 0 ==> LastOn(r.machine.out.log, t.modeState) == Some(["off", "low", "medium", "high"][r.machine.btnState]))
    decreases |inputs|
  {
    if inputs != [] {
      var next := TickStep(t, OneButton, m, inputs[0]);
      var s := Advance(m.btnState);
      assert next.machine.btnState == s;
      var log := next.machine.out.log;
      assert log == m.out.log + Press(t, s).pubs;
      assert log[|log| - 1] == Publication(t.modeState, ["off", "low", "medium", "high"][s]);
      var rest := inputs[1..];
      assert HeldQuiet(rest) by {
        forall i | 0 <= i < |rest|
          ensures rest[i].poll == Quiet && rest[i].reading.btn
        {
          assert rest[i] == inputs[i + 1];
        }
      }
      HeldRun(t, next.machine, rest);
      CycleShift(m.btnState, |rest|);
    }
  }

  /** From off, held ticks report low, medium, high and off in turn, and then the cycle repeats. */
  lemma HeldFromOff(t: TopicSet, m: Machine, inputs: seq<TickInput>)
    requires m.btnState == 0 && HeldQuiet(inputs) && |inputs| > 0
    ensures var r := RunFrom(t, OneButton, m, inputs);
      && r.machine.btnState == |inputs| % 4
      && LastOn(r.machine.out.log, t.modeState) == Some(["off", "low", "medium", "high"][|inputs| % 4])
  {
    HeldRun(t, m, inputs);
    CycleFromZero(|inputs|);
  }

  /** A tick keeps the output and the reported status consistent. */
  lemma TickConsistent(t: TopicSet, layout: Layout, m: Machine, input: TickInput)
    requires Distinct(t) && 0 <= m.btnState <= 3 && StatusConsistent(t, m.out)
    ensures StatusConsistent(t, TickStep(t, layout, m, input).machine.out)
  {
    var mid := AfterPoll(t, m.out, input.poll);
    if input.poll.Incoming? {
      RespondConsistent(t, m.out, input.poll.topic, input.poll.msg);
    }
    var s := StepButtons(layout, m.btnState, m.btnPrev, input.reading);
    if s.fire {
      PressConsistent(t, mid, s.state);
    }
  }

  /** So does any run of ticks. */
  lemma {:induction false} RunConsistent(t: TopicSet, layout: Layout, m: Machine, inputs: seq<TickInput>)
    requires Distinct(t) && 0 <= m.btnState <= 3 && StatusConsistent(t, m.out)
    ensures StatusConsistent(t, RunFrom(t, layout, m, inputs).machine.out)
    decreases |inputs|
  {
    if inputs != [] {
      TickConsistent(t, layout, m, inputs[0]);
      var next := TickStep(t, layout, m, inputs[0]);
      if !next.halted {
        RunConsistent(t, layout, next.machine, inputs[1..]);
      }
    }
  }

  /**
   * Over a run the budget only shrinks, by at most one per tick that ran
   * and never below zero.
   */
  lemma {:induction false} RunBudget(t: TopicSet, layout: Layout, m: Machine, inputs: seq<TickInput>)
    requires 0 <= m.btnState <= 3 && 0 <= m.attempts
    ensures var r := RunFrom(t, layout, m, inputs);
      0 <= r.machine.attempts <= m.attempts && m.attempts - r.machine.attempts <= r.done
    decreases |inputs|
  {
    if inputs != [] {
      var next := TickStep(t, layout, m, inputs[0]);
      if !next.halted {
        RunBudget(t, layout, next.machine, inputs[1..]);
      }
    }
  }

  class SmartAirPurifier {
    const topics: TopicSet
    const layout: Layout
    const maxFreq: int

    // the PWM output
    var freq: int
    var duty: int
    // every `mqtt_client.publish`, oldest first
    var published: seq<Publication>
    // the local variables of `main`
    var btnState: int
    var btnPrev: int
    var attempts: int
    // how many times `main` has called `connect(False)` successfully
    ghost var reconnects: nat
    var config: map<string, string>

    function Out(): Output
      reads this
    {
      Output(freq, duty, published)
    }

    function Snapshot(): Machine
      reads this
    {
      Machine(Out(), btnState, btnPrev, attempts)
    }

    ghost predicate Valid()
      reads this
    {
      && Distinct(topics) && maxFreq == MAX_FREQ
      && 0 <= btnState <= 3 && 0 <= btnPrev <= 3
      && (layout == ThreeButtons ==> btnPrev == btnState)
      && (layout == OneButton ==> btnPrev == 0)
      && 0 <= attempts && attempts + reconnects == INITIAL_ATTEMPTS
      && StatusConsistent(topics, Out())
    }

    /**
     * The device as `main` starts: `connect_mqtt` has published off, 0 and
     * off, `configure` has set the PWM to 1 Hz at duty 0.
     */
    constructor (deviceType: string, clientId: string, config: map<string, string>)
      requires LayoutOf(deviceType).Some?
      ensures Valid()
      ensures topics == MakeTopics(deviceType, clientId) && layout == LayoutOf(deviceType).value
      ensures freq == 1 && duty == 0
      ensures published == [
        Publication(topics.state, "OFF"),
        Publication(topics.speedState, "0"),
        Publication(topics.modeState, "off")]
      ensures btnState == 0 && btnPrev == 0 && attempts == INITIAL_ATTEMPTS && reconnects == 0
      ensures this.config == config
    {
      var t := MakeTopics(deviceType, clientId);
      topics := t;
      layout := LayoutOf(deviceType).value;
      maxFreq := MAX_FREQ;
      published := [
        Publication(t.state, "OFF"),
        Publication(t.speedState, "0"),
        Publication(t.modeState, "off")];
      freq, duty := 1, 0;
      btnState, btnPrev, attempts := 0, 0, INITIAL_ATTEMPTS;
      reconnects := 0;
      this.config := config;
      new;
      MakeTopicsDistinct(deviceType, clientId);
      assert All(topics)[0] != All(topics)[2] && All(topics)[0] != All(topics)[4] && All(topics)[2] != All(topics)[4];
      LastOfThree([], published[0], published[1], published[2]);
      assert [] + published == published;
    }

    method Publish(topic: string, payload: string)
      modifies this`published
      ensures published == old(published) + [Publication(topic, payload)]
    {
      published := published + [Publication(topic, payload)];
    }

    /** Drive the PWM with a row of the table and report it. */
    method ApplyMode(m: Mode)
      modifies this`freq, this`duty, this`published
      ensures Out() == Perform(old(Out()), ModeEffect(topics, m))
    {
      freq := m.freq;
      duty := m.duty;
      Publish(topics.state, m.state);
      Publish(topics.speedState, NatToString(m.speed));
      Publish(topics.modeState, m.preset);
    }

    /** The percentage branch of `mqtt_callback`. */
    method SetPercentage(p: nat)
      requires maxFreq == MAX_FREQ
      modifies this`freq, this`duty, this`published
      ensures Out() == Perform(old(Out()), PercentageEffect(topics, p))
    {
      var preset := Bucket(p);
      if p > 0 {
        freq := if RoundedFreq(p) < maxFreq then RoundedFreq(p) else maxFreq;
        duty := ON_DUTY;
        Publish(topics.state, "ON");
        Publish(topics.modeState, MODES[Int(preset)].preset);
      } else {
        freq := 1;
        duty := 0;
        Publish(topics.state, "OFF");
        Publish(topics.modeState, MODES[Int(preset)].preset);
      }
      Publish(topics.speedState, NatToString(p));
    }

    /**
     * `mqtt_callback(topic, msg)`. Only the output and the publications can
     * change; `raised` says that the exception of undecodable bytes or of a
     * word that is no key escaped to `check_msg`.
     */
    method MqttCallback(topic: string, msg: Payload) returns (raised: bool)
      requires Valid()
      modifies this`freq, this`duty, this`published
      ensures Valid()
      ensures raised == Respond(topics, topic, msg).Raise?
      ensures Out() == Perform(old(Out()), Respond(topics, topic, msg))
    {
      ghost var before := Out();
      RespondConsistent(topics, before, topic, msg);
      raised := false;
      if !(msg in MODES || (msg.Int? && 0 <= msg.i <= 100)) {
        // undecodable bytes raise at `decode`, and for a word `0 <= msg`
        // raises; both outside the inner try
        raised := !msg.Int?;
        return;
      }
      if topic == topics.speedCommand {
        if msg.Int? {
          SetPercentage(msg.i);
        }
        // a word key on the speed topic: `msg > 66` raises TypeError, swallowed
      } else if msg in MODES {
        ApplyMode(MODES[msg]);
      }
      // a number 4..100 on a mode topic: KeyError, swallowed
      assert Out() == Perform(before, Respond(topics, topic, msg));
    }

    /** `btn_callback(code)`: set the code's row and report it. */
    method BtnCallback(code: int)
      requires 0 <= code <= 3 && Distinct(topics)
      modifies this`freq, this`duty, this`published
      ensures StatusConsistent(topics, Out())
      ensures Out() == Perform(old(Out()), Press(topics, code))
    {
      PressConsistent(topics, Out(), code);
      ApplyMode(MODES[Int(code)]);
    }

    /**
     * The `check_msg` part of a tick. A failure costs one reconnect while the
     * budget lasts; a reconnect that itself raises escapes `main` (`halted`).
     */
    method CheckMessages(poll: Poll, reconnectOk: bool) returns (halted: bool)
      requires Valid()
      modifies this`freq, this`duty, this`published, this`attempts, this`reconnects
      ensures Valid()
      ensures Out() == AfterPoll(topics, old(Out()), poll)
      ensures halted == (PollFails(topics, poll) && old(attempts) > 0 && !reconnectOk)
      ensures attempts ==
        if PollFails(topics, poll) && old(attempts) > 0 && reconnectOk then old(attempts) - 1 else old(attempts)
    {
      var failed := false;
      match poll {
        case Broken =>
          failed := true;
        case Quiet =>
        case Incoming(topic, msg) =>
          failed := MqttCallback(topic, msg);
      }
      halted := false;
      if failed && attempts != 0 {
        if !reconnectOk {
          halted := true;
          return;
        }
        attempts := attempts - 1;
        reconnects := reconnects + 1;
      }
    }

    /** The button part of a tick, for the configured layout. */
    method HandleButtons(r: Reading)
      requires Valid()
      modifies this`freq, this`duty, this`published, this`btnState, this`btnPrev
      ensures Valid()
      ensures var s := StepButtons(layout, old(btnState), old(btnPrev), r);
        && btnState == s.state && btnPrev == s.prev
        && Out() == if s.fire then Perform(old(Out()), Press(topics, s.state)) else old(Out())
    {
      match layout
      case ThreeButtons =>
        PollThreeButtons(r);
      case OneButton =>
        PollOneButton(r);
    }

    /** Three buttons: the lowest held one pins its preset, reported only on a change. */
    method PollThreeButtons(r: Reading)
      requires Valid() && layout == ThreeButtons
      modifies this`freq, this`duty, this`published, this`btnState, this`btnPrev
      ensures Valid()
      ensures var s := StepButtons(ThreeButtons, old(btnState), old(btnPrev), r);
        && btnState == s.state && btnPrev == s.prev
        && Out() == if s.fire then Perform(old(Out()), Press(topics, s.state)) else old(Out())
    {
      if r.btn1 {
        btnState := 1;
      } else if r.btn2 {
        btnState := 2;
      } else if r.btn3 {
        btnState := 3;
      } else {
        btnState := 0;
      }
      if btnPrev != btnState {
        BtnCallback(btnState);
        btnPrev := btnState;
      }
    }

    /** One button: every tick it is held steps to the next preset and reports it. */
    method PollOneButton(r: Reading)
      requires Valid() && layout == OneButton
      modifies this`freq, this`duty, this`published, this`btnState
      ensures Valid()
      ensures var s := StepButtons(OneButton, old(btnState), btnPrev, r);
        && btnState == s.state
        && Out() == if s.fire then Perform(old(Out()), Press(topics, s.state)) else old(Out())
    {
      if r.btn {
        btnState := (btnState + 1) % 4;
        BtnCallback(btnState);
      }
    }

    /** One iteration of the `while True` loop of `main`: exactly the pure tick. */
    method Tick(input: TickInput) returns (halted: bool)
      requires Valid()
      modifies this
      ensures Valid()
      ensures config == old(config)
      ensures Outcome(Snapshot(), halted) == TickStep(topics, layout, old(Snapshot()), input)
    {
      halted := CheckMessages(input.poll, input.reconnectOk);
      if halted {
        return;
      }
      HandleButtons(input.reading);
    }

    /**
     * The loop of `main` over a finite run of ticks: exactly `RunFrom`, so
     * it stops early only at the tick whose reconnect raised. Publications
     * are only ever added, the budget only shrinks, and at most five
     * reconnects ever happen.
     */
    method Run(inputs: seq<TickInput>) returns (done: nat, halted: bool)
      requires Valid()
      modifies this
      ensures Valid()
      ensures RunResult(done, halted, Snapshot()) == RunFrom(topics, layout, old(Snapshot()), inputs)
      ensures old(published) <= published
      ensures config == old(config)
      ensures attempts <= old(attempts)
      ensures reconnects == old(reconnects) + (old(attempts) - attempts) <= INITIAL_ATTEMPTS
    {
      ghost var start := Snapshot();
      done, halted := 0, false;
      while done < |inputs|
        invariant Valid()
        invariant done <= |inputs| && !halted
        invariant var rest := RunFrom(topics, layout, Snapshot(), inputs[done..]);
          RunFrom(topics, layout, start, inputs) == RunResult(rest.done + done, rest.halted, rest.machine)
        invariant config == old(config)
      {
        RunFromAt(topics, layout, Snapshot(), inputs, done);
        halted := Tick(inputs[done]);
        done := done + 1;
        if halted {
          break;
        }
      }
      RunBudget(topics, layout, start, inputs);
    }

    /**
     * `parse_request(request)`: store each `key=value` piece of the GET line
     * into the configuration; `ok` is false where the source raises, after the
     * pieces before the bad one have been stored.
     */
    method ParseRequest(request: string) returns (ok: bool)
      modifies this`config
      ensures ok == Parses(request)
      ensures config == Stored(old(config), request)
    {
      var params := Params(request);
      if params.None? {
        return false;  // no second token: IndexError
      }
      var pieces := params.value;
      var i := 0;
      while i < |pieces|
        invariant 0 <= i <= |pieces|
        invariant forall j :: 0 <= j < i ==> KeyValue(pieces[j]).Some?
        invariant config == Assign(old(config), pieces[..i])
      {
        var kv := KeyValue(pieces[i]);
        if kv.None? {
          WellFormedPrefixAt(pieces, i);
          return false;  // not exactly one '=': ValueError
        }
        AssignSnoc(old(config), pieces, i);
        assert forall j :: 0 <= j < i + 1 ==> KeyValue(pieces[j]).Some?;
        config := config[kv.value.0 := kv.value.1];
        i := i + 1;
      }
      WellFormedPrefixAt(pieces, i);
      assert pieces[..i] == pieces;
      ok := true;
    }
  }

  /**
   * Five failing polls on a one-button device use up the budget; on the
   * sixth, no reconnect is attempted (so one that would raise does no harm),
   * the loop goes on, and the press read on that tick still moves the fan
   * from off to low. Publishing is taken to succeed here: on a socket that is
   * really broken, the publish of `btn_callback` (upurifier.py:306) would
   * raise out of `main` after the PWM had already been set to low.
   */
  method ReconnectBudget() returns (halted: bool, left: int, state: int, preset: Option<string>)
    ensures !halted && left == 0 && state == 1 && preset == Some("low")
  {
    var device := new SmartAirPurifier("uppatvind", "0a1b2c", map[]);
    FailFivePolls(device);
    halted, left, state, preset := PressWithBudgetSpent(device);
  }

  /** Five ticks whose poll fails, with every reconnect succeeding and no button pressed. */
  method FailFivePolls(device: SmartAirPurifier)
    requires device.Valid() && device.layout == OneButton
    requires device.attempts == INITIAL_ATTEMPTS && device.btnState == 0
    modifies device
    ensures device.Valid() && device.attempts == 0 && device.btnState == 0
  {
    var idle := Reading(false, false, false, false);
    var i := 0;
    while i < 5
      invariant 0 <= i <= 5
      invariant device.Valid()
      invariant device.attempts == INITIAL_ATTEMPTS - i && device.btnState == 0
    {
      var halted := device.Tick(TickInput(Broken, true, idle));
      i := i + 1;
    }
  }

  /** A tick whose poll fails and whose reconnect would raise, with the budget spent and the button held. */
  method PressWithBudgetSpent(device: SmartAirPurifier) returns (halted: bool, left: int, state: int, preset: Option<string>)
    requires device.Valid() && device.layout == OneButton
    requires device.attempts == 0 && device.btnState == 0
    modifies device
    ensures !halted && left == 0 && state == 1 && preset == Some("low")
  {
    ghost var before := device.Snapshot();
    var t := device.topics;
    PressAfterBudget(t, before);
    halted := device.Tick(TickInput(Broken, false, Reading(false, false, false, true)));
    left, state := device.attempts, device.btnState;
    preset := LastOn(device.published, t.modeState);
    var pubs := Press(t, 1).pubs;
    assert pubs == [pubs[0], pubs[1], pubs[2]];
    assert All(t)[0] != All(t)[2] && All(t)[0] != All(t)[4] && All(t)[2] != All(t)[4];
    LastOfThree(before.out.log, pubs[0], pubs[1], pubs[2]);
  }

  /** With the budget spent, a failing poll leaves the tick to the button, which presses low. */
  lemma PressAfterBudget(t: TopicSet, m: Machine)
    requires m.attempts == 0 && m.btnState == 0
    ensures TickStep(t, OneButton, m, TickInput(Broken, false, Reading(false, false, false, true))) ==
      Outcome(Machine(Perform(m.out, Press(t, 1)), 1, m.btnPrev, 0), false)
  {
  }
}
