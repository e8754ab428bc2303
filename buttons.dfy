/**
 * The two physical button layouts polled by `main` (upurifier.py:327-345):
 * three buttons that each pin a preset (fornuftig) and one button that steps
 * through the presets (uppatvind).
 */
module Buttons {
  import opened Wrappers

  datatype Layout = ThreeButtons | OneButton

  /** `device_type` selects the layout; any other device is not configured. */
  function LayoutOf(deviceType: string): (l: Option<Layout>)
    ensures l == Some(ThreeButtons) <==> deviceType == "fornuftig"
    ensures l == Some(OneButton) <==> deviceType == "uppatvind"
  {
    if deviceType == "fornuftig" then Some(ThreeButtons)
    else if deviceType == "uppatvind" then Some(OneButton)
    else None
  }

  /**
   * One sample of the button pins; true where the pin reads 0, that is, the
   * button is held (the pins are pulled up). `btn` is the single button of the
   * one-button layout.
   */
  datatype Reading = Reading(btn1: bool, btn2: bool, btn3: bool, btn: bool)

  predicate Held(r: Reading, i: int) {
    (i == 1 && r.btn1) || (i == 2 && r.btn2) || (i == 3 && r.btn3)
  }

  /** The three-button layout: the lowest-numbered held button wins; none held is 0. */
  function Select(r: Reading): (code: int)
    ensures 0 <= code <= 3
    ensures code == 0 <==> !Held(r, 1) && !Held(r, 2) && !Held(r, 3)
    ensures code != 0 ==> Held(r, code) && forall j :: 1 <= j < code ==> !Held(r, j)
  {
    if r.btn1 then 1 else if r.btn2 then 2 else if r.btn3 then 3 else 0
  }

  /** The one-button layout: each tick with the button held moves to the next preset. */
  function Advance(state: int): (next: int)
    ensures 0 <= next <= 3
  {
    (state + 1) % 4
  }

  /** The button variables after a tick, and whether `btn_callback` ran. */
  datatype Step = Step(state: int, prev: int, fire: bool)

  function StepButtons(layout: Layout, state: int, prev: int, r: Reading): (s: Step)
    ensures 0 <= state <= 3 ==> 0 <= s.state <= 3
    ensures !s.fire ==> s.state == (if layout == ThreeButtons then prev else state) && s.prev == prev
  {
    match layout
    case ThreeButtons =>
      var code := Select(r);
      if prev != code then Step(code, code, true) else Step(code, prev, false)
    case OneButton =>
      if r.btn then Step(Advance(state), prev, true) else Step(state, prev, false)
  }

  /**
   * Three buttons: the state is the selected code; the callback runs exactly
   * when it differs from the previous one, and afterwards both agree.
   */
  lemma ThreeButtonStep(state: int, prev: int, r: Reading)
    ensures var s := StepButtons(ThreeButtons, state, prev, r);
      s.state == Select(r) && s.prev == s.state && (s.fire <==> Select(r) != prev)
  {
  }

  /** Holding the same buttons for a second tick runs nothing. */
  lemma HeldReadingIsQuiet(state: int, prev: int, r: Reading)
    ensures var s := StepButtons(ThreeButtons, state, prev, r);
      !StepButtons(ThreeButtons, s.state, s.prev, r).fire
  {
  }

  /**
   * One button: every tick it reads held advances the state modulo 4 and runs
   * the callback, whether or not it was held on the tick before; the previous
   * value is never touched.
   */
  lemma OneButtonStep(state: int, prev: int, r: Reading)
    requires 0 <= state <= 3
    ensures var s := StepButtons(OneButton, state, prev, r);
      && s.prev == prev && (s.fire <==> r.btn) && 0 <= s.state <= 3
      && s.state == if r.btn then (state + 1) % 4 else state
  {
  }

  /** The state after n ticks with the button held. */
  function Cycle(state: int, n: nat): (c: int)
    ensures n > 0 || 0 <= state <= 3 ==> 0 <= c <= 3
  {
    if n == 0 then state else Advance(Cycle(state, n - 1))
  }

  lemma ModStep(x: int)
    ensures (x + 1) % 4 == (x % 4 + 1) % 4
  {
    var q, r := x / 4, x % 4;
    assert x == 4 * q + r && 0 <= r < 4;
    if r == 3 {
      assert x + 1 == 4 * (q + 1);
    } else {
      assert x + 1 == 4 * q + (r + 1);
    }
  }

  /** n ticks with the button held from a preset move n steps round the cycle of four. */
  lemma {:induction false} CycleIsModular(state: int, n: nat)
    requires 0 <= state <= 3
    ensures Cycle(state, n) == (state + n) % 4
  {
    if n > 0 {
      var x := state + n - 1;
      CycleIsModular(state, n - 1);
      assert Cycle(state, n) == (x % 4 + 1) % 4;
      ModStep(x);
      assert x + 1 == state + n;
    }
  }

  /** Advancing first and then n more ticks is n + 1 ticks. */
  lemma {:induction false} CycleShift(state: int, n: nat)
    ensures Cycle(Advance(state), n) == Cycle(state, n + 1)
  {
    if n > 0 {
      CycleShift(state, n - 1);
    }
  }

  /** Four more ticks lead back to the same state. */
  lemma {:induction false} CyclePeriod(state: int, n: nat)
    requires 0 <= state <= 3
    ensures Cycle(state, n + 4) == Cycle(state, n)
  {
    if n == 0 {
      assert Advance(0) == 1 && Advance(1) == 2 && Advance(2) == 3 && Advance(3) == 0;
      var s1 := Advance(state);
      var s2 := Advance(s1);
      var s3 := Advance(s2);
      assert Cycle(state, 4) == Advance(s3);
      assert state == 0 || state == 1 || state == 2 || state == 3;
    } else {
      CyclePeriod(state, n - 1);
      assert Cycle(state, n + 4) == Advance(Cycle(state, n - 1 + 4));
    }
  }

  /** From off, n ticks reach state n mod 4. */
  lemma CycleFromZero(n: nat)
    ensures Cycle(0, n) == n % 4
  {
    CycleIsModular(0, n);
  }

  /** From off, four presses visit low, medium, high and off, and the cycle then repeats. */
  lemma {:induction false} CycleFromOff(n: nat)
    ensures Cycle(0, 1) == 1 && Cycle(0, 2) == 2 && Cycle(0, 3) == 3 && Cycle(0, 4) == 0
    ensures Cycle(0, n + 4) == Cycle(0, n)
  {
    CycleIsModular(0, 1);
    CycleIsModular(0, 2);
    CycleIsModular(0, 3);
    CycleIsModular(0, 4);
    CyclePeriod(0, n);
  }
}
