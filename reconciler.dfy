/**
 * What one command does to the PWM output and to the status topics, as a
 * value: the decision `mqtt_callback` and `btn_callback` take
 * (upurifier.py:253-308), separated from the object that carries it out.
 */
module Reconciler {
  import opened Wrappers
  import opened Decimal
  import opened Modes
  import opened Topics

  datatype Publication = Publication(topic: string, payload: string)

  /** Why a payload was dropped without any effect. */
  datatype Reason =
    | OutOfRange      // a number outside 0..100 fails the test at the head of the callback
    | UnknownMode     // a number 4..100 on a mode topic: KeyError on the table, swallowed
    | NotAPercentage  // a mode word on the speed topic: TypeError on `msg > 66`, swallowed

  datatype Effect =
    | Apply(freq: int, duty: int, pubs: seq<Publication>)
    | Discard(reason: Reason)
    | Raise  // undecodable bytes, or a word that is no key: the exception escapes the callback

  /** The PWM output together with everything published so far. */
  datatype Output = Output(freq: int, duty: int, log: seq<Publication>)

  function Perform(o: Output, e: Effect): (r: Output)
    ensures e.Apply? ==> r.freq == e.freq && r.duty == e.duty && r.log == o.log + e.pubs
    ensures !e.Apply? ==> r == o
  {
    if e.Apply? then Output(e.freq, e.duty, o.log + e.pubs) else o
  }

  /** Setting a mode: its frequency and duty, then state, speed and preset in that order. */
  function ModeEffect(t: TopicSet, m: Mode): (e: Effect)
    ensures e.Apply? && e.freq == m.freq && e.duty == m.duty && |e.pubs| == 3
    ensures e.pubs[0] == Publication(t.state, m.state) && e.pubs[2] == Publication(t.modeState, m.preset)
    ensures e.pubs[1].topic == t.speedState && IsDigits(e.pubs[1].payload) && ValueOf(e.pubs[1].payload) == m.speed
    ensures |e.pubs[1].payload| > 0 && (e.pubs[1].payload[0] == '0' <==> m.speed == 0)
  {
    ValueOfNatToString(m.speed);
    Apply(m.freq, m.duty, [
      Publication(t.state, m.state),
      Publication(t.speedState, NatToString(m.speed)),
      Publication(t.modeState, m.preset)])
  }

  /** `btn_callback(code)`. */
  function Press(t: TopicSet, code: int): (e: Effect)
    requires 0 <= code <= 3
    ensures e.Apply? && |e.pubs| == 3
    ensures e.duty == if code == 0 then 0 else ON_DUTY
    ensures e.pubs[2].payload == ["off", "low", "medium", "high"][code]
  {
    ModeEffect(t, MODES[Int(code)])
  }

  /** The percentage branch of `mqtt_callback`: state, then preset, then the percentage. */
  function PercentageEffect(t: TopicSet, p: nat): (e: Effect)
    ensures e.Apply? && |e.pubs| == 3 && (e.duty == ON_DUTY <==> p > 0)
    ensures e.pubs[0].topic == t.state && e.pubs[1].topic == t.modeState && e.pubs[2].topic == t.speedState
    ensures IsDigits(e.pubs[2].payload) && ValueOf(e.pubs[2].payload) == p
    ensures |e.pubs[2].payload| > 0 && (e.pubs[2].payload[0] == '0' <==> p == 0)
  {
    ValueOfNatToString(p);
    var preset := MODES[Int(Bucket(p))].preset;
    if p > 0 then
      Apply(SpeedFreq(p), ON_DUTY, [
        Publication(t.state, "ON"),
        Publication(t.modeState, preset),
        Publication(t.speedState, NatToString(p))])
    else
      Apply(1, 0, [
        Publication(t.state, "OFF"),
        Publication(t.modeState, preset),
        Publication(t.speedState, NatToString(p))])
  }

  /** `mqtt_callback(topic, msg)`. */
  function Respond(t: TopicSet, topic: string, msg: Payload): (e: Effect)
    ensures e.Raise? <==> !msg.Int? && msg !in MODES
    ensures e.Apply? ==> |e.pubs| == 3 && e.pubs[0].topic == t.state
  {
    if !(msg in MODES || (msg.Int? && 0 <= msg.i <= 100)) then
      if msg.Int? then Discard(OutOfRange) else Raise
    else if topic == t.speedCommand then
      if !msg.Int? then Discard(NotAPercentage)
      else
        PercentageEffect(t, msg.i)
    else if msg !in MODES then Discard(UnknownMode)
    else ModeEffect(t, MODES[msg])
  }

  /** Every percentage on the speed topic passes the test at the head of the callback. */
  lemma SpeedTopicTakesPercentage(t: TopicSet, p: int)
    requires 0 <= p <= 100
    ensures Respond(t, t.speedCommand, Int(p)) == PercentageEffect(t, p)
  {
  }

  /** A percentage sets the formula's frequency and the fixed duty above zero, and 1 Hz at duty 0 for zero. */
  lemma PercentageOutput(t: TopicSet, p: nat)
    requires p <= 100
    ensures var e := PercentageEffect(t, p);
      && e.Apply? && |e.pubs| == 3
      && e.pubs[0].topic == t.state && e.pubs[1].topic == t.modeState && e.pubs[2].topic == t.speedState
      && (p > 0 ==> e.pubs[0].payload == "ON" && e.duty == ON_DUTY && e.freq == RoundedFreq(p) && 82 <= e.freq <= MAX_FREQ)
      && (p == 0 ==> e.pubs[0].payload == "OFF" && e.duty == 0 && e.freq == 1)
  {
    if p > 0 {
      SpeedFreqRange(p);
    }
  }

  /** The preset published for a percentage is the lowest row whose speed reaches it. */
  lemma PercentagePreset(t: TopicSet, p: nat)
    requires p <= 100
    ensures var name := PercentageEffect(t, p).pubs[1].payload;
      && CodeOf(name) == Some(Bucket(p))
      && p <= MODES[Int(Bucket(p))].speed
      && (Bucket(p) > 0 ==> MODES[Int(Bucket(p) - 1)].speed < p)
  {
    assert PercentageEffect(t, p).pubs[1].payload == MODES[Int(Bucket(p))].preset;
    Aliases(Bucket(p));
    BucketIsLeastCover(p);
  }

  /** The speed published last reads back as the percentage received. */
  lemma PercentageEcho(t: TopicSet, p: nat)
    ensures var speed := PercentageEffect(t, p).pubs[2].payload;
      IsDigits(speed) && ValueOf(speed) == p && (speed[0] == '0' <==> p == 0)
  {
    assert PercentageEffect(t, p).pubs[2].payload == NatToString(p);
    ValueOfNatToString(p);
  }

  /** The bucket boundaries, as published on the preset topic. */
  lemma PercentageBoundaries(t: TopicSet)
    ensures Respond(t, t.speedCommand, Int(100)).pubs[1].payload == "high"
    ensures Respond(t, t.speedCommand, Int(67)).pubs[1].payload == "high"
    ensures Respond(t, t.speedCommand, Int(66)).pubs[1].payload == "medium"
    ensures Respond(t, t.speedCommand, Int(34)).pubs[1].payload == "medium"
    ensures Respond(t, t.speedCommand, Int(33)).pubs[1].payload == "low"
    ensures Respond(t, t.speedCommand, Int(1)).pubs[1].payload == "low"
    ensures Respond(t, t.speedCommand, Int(0)).pubs[1].payload == "off"
  {
    SpeedTopicPreset(t, 100);
    SpeedTopicPreset(t, 67);
    SpeedTopicPreset(t, 66);
    SpeedTopicPreset(t, 34);
    SpeedTopicPreset(t, 33);
    SpeedTopicPreset(t, 1);
    SpeedTopicPreset(t, 0);
  }

  lemma SpeedTopicPreset(t: TopicSet, p: int)
    requires 0 <= p <= 100
    ensures Respond(t, t.speedCommand, Int(p)).pubs[1].payload == MODES[Int(Bucket(p))].preset
  {
    SpeedTopicTakesPercentage(t, p);
  }

  /** 50 % runs at 190 Hz and reports ON, 50 and medium. */
  lemma PercentageFifty(t: TopicSet)
    ensures Respond(t, t.speedCommand, Int(50)) == Apply(190, 512, [
      Publication(t.state, "ON"), Publication(t.modeState, "medium"), Publication(t.speedState, "50")])
  {
    assert NatToString(50) == [DigitChar(5)] + [DigitChar(0)];
    assert DigitChar(5) == '5' && DigitChar(0) == '0';
    assert NatToString(50) == "50";
    assert SpeedFreq(50) == 190;
    SpeedTopicTakesPercentage(t, 50);
  }

  /**
   * A mode key on any other topic applies its row verbatim and publishes
   * state, speed and preset in that order; reading back the speed gives the
   * row's speed.
   */
  lemma ModeCommand(t: TopicSet, topic: string, k: Payload)
    requires topic != t.speedCommand && k in MODES
    ensures var e := Respond(t, topic, k);
      && e.Apply? && e.freq == MODES[k].freq && e.duty == MODES[k].duty && |e.pubs| == 3
      && e.pubs[0] == Publication(t.state, MODES[k].state)
      && e.pubs[1].topic == t.speedState && ValueOf(e.pubs[1].payload) == MODES[k].speed
      && e.pubs[2] == Publication(t.modeState, MODES[k].preset)
  {
    ValueOfNatToString(MODES[k].speed);
  }

  /** A button press and the same code sent on the power topic have the same effect. */
  lemma PressIsModeCommand(t: TopicSet, code: int)
    requires 0 <= code <= 3 && Distinct(t)
    ensures Press(t, code) == Respond(t, t.command, Int(code))
  {
    assert All(t)[1] != All(t)[3];
  }

  /** 33 % on the speed topic gives 153 Hz, while "low" or 1 on the power topic gives the table's 152 Hz. */
  lemma PercentageAgainstPreset(t: TopicSet)
    requires Distinct(t)
    ensures Respond(t, t.speedCommand, Int(33)).freq == 153
    ensures Respond(t, t.command, Int(1)).freq == 152
    ensures Respond(t, t.command, Str("low")).freq == 152
  {
    assert All(t)[1] != All(t)[3];
  }

  /** Exactly which payloads take effect. */
  lemma Accepted(t: TopicSet, topic: string, msg: Payload)
    ensures Respond(t, topic, msg).Apply? <==>
      (topic == t.speedCommand && msg.Int? && 0 <= msg.i <= 100) ||
      (topic != t.speedCommand && msg in MODES)
  {
  }

  /** Exactly which payloads are dropped, and why; only undecodable bytes and a word that is no key escape. */
  lemma Rejected(t: TopicSet, topic: string, msg: Payload)
    ensures Respond(t, topic, msg) == Discard(OutOfRange) <==> msg.Int? && !(0 <= msg.i <= 100)
    ensures Respond(t, topic, msg) == Discard(UnknownMode) <==>
      topic != t.speedCommand && msg.Int? && 4 <= msg.i <= 100
    ensures Respond(t, topic, msg) == Discard(NotAPercentage) <==> topic == t.speedCommand && msg.Str? && msg in MODES
    ensures Respond(t, topic, msg) == Raise <==> msg.Undecodable? || (msg.Str? && msg !in MODES)
  {
  }

  /** A command repeated changes nothing more: same PWM, and the same publications again. */
  lemma RepeatCommand(t: TopicSet, o: Output, topic: string, msg: Payload)
    ensures var once := Perform(o, Respond(t, topic, msg));
      var twice := Perform(once, Respond(t, topic, msg));
      && twice.freq == once.freq && twice.duty == once.duty
      && |once.log| >= |o.log|
      && twice.log == once.log + once.log[|o.log|..]
  {
    var e := Respond(t, topic, msg);
    if e.Apply? {
      assert (o.log + e.pubs)[|o.log|..] == e.pubs;
    }
  }

  /** The payload last published on a topic. */
  function LastOn(log: seq<Publication>, topic: string): Option<string> {
    if log == [] then None
    else if log[|log| - 1].topic == topic then Some(log[|log| - 1].payload)
    else LastOn(log[..|log| - 1], topic)
  }

  /**
   * The output and the last reported status agree: off means 1 Hz, duty 0 and
   * OFF, 0, off; on means the fixed duty, a frequency in [82, 300] and ON, a
   * non-zero speed and one of the three running presets.
   */
  predicate StatusConsistent(t: TopicSet, o: Output) {
    var state := LastOn(o.log, t.state);
    var speed := LastOn(o.log, t.speedState);
    var preset := LastOn(o.log, t.modeState);
    || (o.freq == 1 && o.duty == 0 &&
        state == Some("OFF") && speed == Some("0") && preset == Some("off"))
    || (o.duty == ON_DUTY && 82 <= o.freq <= MAX_FREQ &&
        state == Some("ON") && speed.Some? && speed.value != "0" &&
        preset.Some? && preset.value in {"low", "medium", "high"})
  }

  /** Three publications on three different topics decide what is last on each of them. */
  lemma LastOfThree(log: seq<Publication>, a: Publication, b: Publication, c: Publication)
    requires a.topic != b.topic && b.topic != c.topic && a.topic != c.topic
    ensures LastOn(log + [a, b, c], a.topic) == Some(a.payload)
    ensures LastOn(log + [a, b, c], b.topic) == Some(b.payload)
    ensures LastOn(log + [a, b, c], c.topic) == Some(c.payload)
  {
    var abc := log + [a, b, c];
    assert abc[..|abc| - 1] == log + [a, b];
    assert (log + [a, b])[..|abc| - 2] == log + [a];
    assert LastOn(log + [a, b], a.topic) == LastOn(log + [a], a.topic) == Some(a.payload);
  }

  /** A percentage leaves the output and the reported status consistent. */
  lemma PercentageConsistent(t: TopicSet, o: Output, p: nat)
    requires Distinct(t) && p <= 100
    ensures StatusConsistent(t, Perform(o, PercentageEffect(t, p)))
  {
    var pubs := PercentageEffect(t, p).pubs;
    assert pubs == [pubs[0], pubs[1], pubs[2]];
    assert All(t)[0] != All(t)[2] && All(t)[0] != All(t)[4] && All(t)[2] != All(t)[4];
    LastOfThree(o.log, pubs[0], pubs[1], pubs[2]);
    if p > 0 {
      SpeedFreqRange(p);
      assert NatToString(p)[0] != '0';
    }
  }

  /** So does any row of the table. */
  lemma ModeConsistent(t: TopicSet, o: Output, k: Payload)
    requires Distinct(t) && k in MODES
    ensures StatusConsistent(t, Perform(o, ModeEffect(t, MODES[k])))
  {
    var m := MODES[k];
    Rows(k);
    var pubs := ModeEffect(t, m).pubs;
    assert pubs == [pubs[0], pubs[1], pubs[2]];
    assert All(t)[0] != All(t)[2] && All(t)[0] != All(t)[4] && All(t)[2] != All(t)[4];
    LastOfThree(o.log, pubs[0], pubs[1], pubs[2]);
    assert m != OFF ==> m.speed != 0;
  }

  /** Every command that takes effect leaves the output and the reported status consistent. */
  lemma RespondConsistent(t: TopicSet, o: Output, topic: string, msg: Payload)
    requires Distinct(t)
    requires Respond(t, topic, msg).Apply? || StatusConsistent(t, o)
    ensures StatusConsistent(t, Perform(o, Respond(t, topic, msg)))
  {
    if Respond(t, topic, msg).Apply? {
      if topic == t.speedCommand {
        PercentageConsistent(t, o, msg.i);
      } else {
        ModeConsistent(t, o, msg);
      }
    }
  }

  /** So does every button press. */
  lemma PressConsistent(t: TopicSet, o: Output, code: int)
    requires Distinct(t) && 0 <= code <= 3
    ensures StatusConsistent(t, Perform(o, Press(t, code)))
  {
    ModeConsistent(t, o, Int(code));
  }
}
