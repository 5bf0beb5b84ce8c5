/**
 The daemon's configuration record (struct cfg) and its defaults.

 `F` is the type of the sensitivity factors: real numbers where they are
 printed, parsed or multiplied, raw 32-bit patterns where they only pass
 through the client protocol.
 */
module Config {

  const MAX_AXES := 64
  const MAX_BUTTONS := 64
  const MAX_CUSTOM := 64

  const LED_OFF := 0
  const LED_ON := 1
  const LED_AUTO := 2

  // button actions
  const BNACT_NONE := 0
  const BNACT_SENS_RESET := 1
  const BNACT_SENS_INC := 2
  const BNACT_SENS_DEC := 3
  const BNACT_DISABLE_ROTATION := 4
  const BNACT_DISABLE_TRANSLATION := 5
  const BNACT_DOMINANT_AXIS := 6
  const MAX_BNACT := 7

  // "" in kbmapStr stands for a button without a keyboard mapping.
  datatype Cfg<F> = Cfg(
    sensitivity: F, sensTrans: seq<F>, sensRot: seq<F>,
    dead: seq<int>, invert: seq<bool>, mapAxis: seq<int>,
    mapButton: seq<int>, mapHold: seq<int>, holdTimeout: int,
    bnact: seq<int>, kbmapStr: seq<string>,
    swapyz: int, led: int, grab: int, serial: string, repeat: int,
    devid: seq<(int, int)>, sockpath: string, kbemuX11: int)
  {
    // the array sizes of the C struct
    predicate Shaped() {
      && |sensTrans| == 3 && |sensRot| == 3
      && |dead| == MAX_AXES && |invert| == 6 && |mapAxis| == MAX_AXES
      && |mapButton| == MAX_BUTTONS && |mapHold| == MAX_BUTTONS
      && |bnact| == MAX_BUTTONS && |kbmapStr| == MAX_BUTTONS
      && |devid| == MAX_CUSTOM
    }

    // every index and every code a setting holds exists
    ghost predicate Sane()
      requires Shaped()
    {
      && holdTimeout >= 0
      && (forall i :: 0 <= i < MAX_BUTTONS ==>
            0 <= mapButton[i] < MAX_BUTTONS && -1 <= mapHold[i] < MAX_BUTTONS && 0 <= bnact[i] < MAX_BNACT)
      && (forall i :: 0 <= i < MAX_AXES ==> -1 <= mapAxis[i] < 6 || mapAxis[i] == i)
    }
  }

  function DefaultDeadAt(i: int): int { if i < 6 then 2 else 0 }

  function DefaultDead(): (d: seq<int>)
    ensures |d| == MAX_AXES && forall i :: 0 <= i < MAX_AXES ==> d[i] == DefaultDeadAt(i)
  {
    seq(MAX_AXES, i => DefaultDeadAt(i))
  }

  function Identity(n: nat): (s: seq<int>)
    ensures |s| == n && forall i :: 0 <= i < n ==> s[i] == i
  {
    seq(n, i => i)
  }

  function Fill<T>(n: nat, x: T): (s: seq<T>)
    ensures |s| == n && forall i :: 0 <= i < n ==> s[i] == x
  {
    seq(n, _ => x)
  }

  /** default_cfg; `one` is the factor 1.0. */
  function DefaultCfg<F>(one: F): (c: Cfg<F>)
    ensures c.Shaped()
  {
    Cfg(
      one, Fill(3, one), Fill(3, one),
      DefaultDead(), Fill(6, false), Identity(MAX_AXES),
      Identity(MAX_BUTTONS), Fill(MAX_BUTTONS, -1), 350,
      Fill(MAX_BUTTONS, BNACT_NONE), Fill(MAX_BUTTONS, ""),
      0, LED_ON, 1, "", -1,
      Fill(MAX_CUSTOM, (-1, -1)), "", 0)
  }
}
