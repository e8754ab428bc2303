/**
 * The operating modes of the purifier and the mapping of a fan percentage to
 * a preset and a PWM frequency (upurifier.py, the `modes` table of
 * `SmartAirPurifier.__init__` and the percentage branch of `mqtt_callback`).
 */
module Modes {
  import opened Wrappers

  /**
   * An MQTT payload after decoding and `int(msg)` have been tried on it: a
   * number, the decoded text, or bytes that are no valid UTF-8.
   */
  datatype Payload = Int(i: int) | Str(s: string) | Undecodable

  /** One row of the modes table. */
  datatype Mode = Mode(state: string, speed: nat, freq: nat, duty: nat, preset: string)

  const OFF := Mode("OFF", 0, 1, 0, "off")
  const LOW := Mode("ON", 33, 152, 512, "low")
  const MEDIUM := Mode("ON", 66, 225, 512, "medium")
  const HIGH := Mode("ON", 100, 300, 512, "high")

  /** The modes table, keyed by the numeric codes, the power words and the preset names. */
  const MODES: map<Payload, Mode> := map[
    Int(0) := OFF, Int(1) := LOW, Int(2) := MEDIUM, Int(3) := HIGH,
    Str("ON") := HIGH, Str("OFF") := OFF,
    Str("off") := OFF, Str("low") := LOW, Str("medium") := MEDIUM, Str("high") := HIGH
  ]

  /** The duty value of every mode that is on. */
  const ON_DUTY := 512

  /** `max_freq`, the same for both supported devices. */
  const MAX_FREQ := 300

  /** The numeric code whose row carries the given preset name. */
  function CodeOf(preset: string): (code: Option<int>)
    ensures code.Some? ==> 0 <= code.value <= 3 && MODES[Int(code.value)].preset == preset
    ensures code.None? ==> forall c :: 0 <= c <= 3 ==> MODES[Int(c)].preset != preset
  {
    if preset == "off" then Some(0)
    else if preset == "low" then Some(1)
    else if preset == "medium" then Some(2)
    else if preset == "high" then Some(3)
    else None
  }

  /** Every row that is off is the all-zero row named "off". */
  lemma OffRows(k: Payload)
    requires k in MODES && MODES[k].state == "OFF"
    ensures MODES[k] == Mode("OFF", 0, 1, 0, "off")
  {
  }

  /** Every row is on or off, and a row that is on runs at the fixed duty with a speed of 33, 66 or 100. */
  lemma OnRows(k: Payload)
    requires k in MODES
    ensures MODES[k].state == "ON" || MODES[k].state == "OFF"
    ensures MODES[k].state == "ON" ==> MODES[k].duty == ON_DUTY && MODES[k].speed in {33, 66, 100}
    ensures MODES[k].state == "ON" <==> MODES[k].speed != 0
    ensures 1 <= MODES[k].freq <= MAX_FREQ
  {
  }

  /** A numeric code and its preset name select the same row; "ON" is high and "OFF" is off. */
  lemma Aliases(code: int)
    requires 0 <= code <= 3
    ensures Str(MODES[Int(code)].preset) in MODES
    ensures MODES[Str(MODES[Int(code)].preset)] == MODES[Int(code)]
    ensures CodeOf(MODES[Int(code)].preset) == Some(code)
    ensures MODES[Str("ON")] == MODES[Int(3)] == MODES[Str("high")]
    ensures MODES[Str("OFF")] == MODES[Int(0)] == MODES[Str("off")]
  {
  }

  /** The ten keys select only four distinct rows. */
  lemma Rows(k: Payload)
    requires k in MODES
    ensures MODES[k] == OFF || MODES[k] == LOW || MODES[k] == MEDIUM || MODES[k] == HIGH
  {
  }

  /** The keys of the table: the codes 0 to 3 and six words. */
  lemma Keys(k: Payload)
    ensures k in MODES <==>
      (k.Int? && 0 <= k.i <= 3) ||
      (k.Str? && k.s in {"ON", "OFF", "off", "low", "medium", "high"})
  {
  }

  /** The preset a percentage falls into (the if/elif chain on the speed topic). */
  function Bucket(p: int): (code: int)
    ensures 0 <= code <= 3
  {
    if p > 66 then 3 else if p > 33 then 2 else if p > 0 then 1 else 0
  }

  /**
   * A percentage falls into the lowest preset whose table speed reaches it;
   * so 67 is high, 66 and 34 medium, 33 and 1 low, 0 off.
   */
  lemma BucketIsLeastCover(p: int)
    requires 0 <= p <= 100
    ensures p <= MODES[Int(Bucket(p))].speed
    ensures Bucket(p) > 0 ==> MODES[Int(Bucket(p) - 1)].speed < p
  {
  }

  /** A larger percentage never selects a lower preset. */
  lemma BucketMonotone(p: int, q: int)
    requires p <= q
    ensures Bucket(p) <= Bucket(q)
  {
  }

  /**
   * `round(float(p) * 2.2 + 80)` in integers. The fractional part of 2.2 * p is
   * a multiple of 0.2, so the result is the nearest integer and never a tie.
   */
  function RoundedFreq(p: int): (f: int)
    ensures -5 < 10 * f - (22 * p + 800) < 5
  {
    (22 * p + 805) / 10
  }

  /** `min(round(p * 2.2 + 80), max_freq)`. */
  function SpeedFreq(p: int): (f: int)
    ensures f <= RoundedFreq(p) && f <= MAX_FREQ
    ensures f == RoundedFreq(p) || f == MAX_FREQ
  {
    if RoundedFreq(p) < MAX_FREQ then RoundedFreq(p) else MAX_FREQ
  }

  /** For every percentage above zero the clamp is never active and the frequency lies in [82, 300]. */
  lemma SpeedFreqRange(p: int)
    requires 1 <= p <= 100
    ensures SpeedFreq(p) == RoundedFreq(p)
    ensures 82 <= SpeedFreq(p) <= MAX_FREQ
  {
  }

  /** The frequency never falls as the percentage grows. */
  lemma SpeedFreqMonotone(p: int, q: int)
    requires p <= q
    ensures SpeedFreq(p) <= SpeedFreq(q)
  {
  }

  /**
   * The formula and the table agree at 66 % (225 Hz) and 100 % (300 Hz), but
   * 33 % gives 153 Hz where the "low" row holds 152 Hz.
   */
  lemma FormulaAgainstTable()
    ensures SpeedFreq(33) == 153 && MODES[Int(1)].freq == 152
    ensures SpeedFreq(66) == MODES[Int(2)].freq == 225
    ensures SpeedFreq(100) == MODES[Int(3)].freq == 300
  {
  }
}
