/**
 Reading back a file that was saved: for every history of saves, exactly which
 configuration read_cfg returns, and exactly when that is the one last saved.
 */
module CfgReload {
  import opened Basics
  import opened CText
  import opened Config
  import opened CfgKeys
  import opened CfgTable
  import opened CfgWrite
  import opened CfgRead
  import opened CfgSave

  // ---- what survives printing and parsing -----------------------------------------

  predicate NoBreak(s: string) { forall i :: 0 <= i < |s| ==> s[i] != '\n' && s[i] != '\r' }

  // 10^42, beyond the range of a C float in thousandths
  function Magnitude(): int { Pow10(42) }

  // a factor whose printed form has a sane length; every C float qualifies
  predicate Printable3(x: real) { -Magnitude() < Thousandths(x) < Magnitude() }

  // a string on one line of the file, with its option name
  predicate OneLine(k: Key, s: string) { NoBreak(s) && |LineOf(k, s)| <= LINE_MAX }

  predicate Ints(s: seq<int>) { forall i :: 0 <= i < |s| ==> IsInt(s[i]) }

  /**
   Values the C struct can hold, strings that fit on one line of the file. The
   lines are cut at 511 characters, and a line break inside a string would start
   another option.
   */
  predicate Printable(c: Cfg<real>) {
    && c.Shaped()
    && Printable3(c.sensitivity)
    && (forall i :: 0 <= i < 3 ==> Printable3(c.sensTrans[i]) && Printable3(c.sensRot[i]))
    && Ints(c.dead) && Ints(c.mapAxis) && Ints(c.mapButton) && Ints(c.mapHold)
    && IsInt(c.holdTimeout) && IsInt(c.repeat)
    && (forall i :: 0 <= i < MAX_BUTTONS ==> OneLine(KbMap(i), c.kbmapStr[i]))
    && OneLine(Serial, c.serial) && OneLine(SockPath, c.sockpath)
  }

  lemma PrintableShaped(c: Cfg<real>)
    requires Printable(c)
    ensures c.Shaped()
  {
  }

  function Grid(x: real): real { Thousandths(x) as real / 1000.0 }

  // the first separator-free word of a string
  function Word(s: string): string {
    match Strtok(s) case None => "" case Some((w, _)) => w
  }

  function Each<T, U>(s: seq<T>, f: T -> U): (r: seq<U>)
    ensures |r| == |s| && forall i :: 0 <= i < |s| ==> r[i] == f(s[i])
  {
    seq(|s|, i requires 0 <= i < |s| => f(s[i]))
  }

  function KeepMap(s: seq<int>, limit: int): (r: seq<int>)
    ensures |r| == |s| && forall i :: 0 <= i < |s| ==> r[i] == if 0 <= s[i] < limit then s[i] else i
  {
    seq(|s|, i requires 0 <= i < |s| => if 0 <= s[i] < limit then s[i] else i)
  }

  /** What read_cfg makes of the lines printed for c: factors on the 0.001 grid, values in range, single words. */
  function Normal(c: Cfg<real>): (n: Cfg<real>)
    requires c.Shaped()
    ensures n.Shaped()
  {
    c.(sensitivity := Grid(c.sensitivity), sensTrans := Each(c.sensTrans, Grid), sensRot := Each(c.sensRot, Grid),
       mapAxis := KeepMap(c.mapAxis, 6), mapButton := KeepMap(c.mapButton, MAX_BUTTONS),
       mapHold := Each(c.mapHold, v => if ButtonIdx(v) then v else -1),
       holdTimeout := if c.holdTimeout < 0 then 350 else c.holdTimeout,
       bnact := Each(c.bnact, v => if 0 <= v < MAX_BNACT then v else BNACT_NONE),
       kbmapStr := Each(c.kbmapStr, Word),
       swapyz := if c.swapyz != 0 then 1 else 0,
       led := if c.led == LED_OFF || c.led == LED_AUTO then c.led else LED_ON,
       grab := if c.grab != 0 then 1 else 0,
       serial := Word(c.serial), sockpath := Word(c.sockpath), kbemuX11 := 0)
  }

  // ---- fields ------------------------------------------------------------------------

  datatype Field =
    | FSens | FTrans(i: int) | FRot(i: int) | FDead(i: int) | FInv(i: int)
    | FAxis(i: int) | FBn(i: int) | FHold(i: int) | FAct(i: int) | FKb(i: int)
    | FSwap | FLed | FGrab | FSerial | FRepeat | FTimeout | FSock | FX11

  datatype Val = R(r: real) | I(n: int) | B(b: bool) | S(s: string)

  predicate InRange(f: Field) {
    match f
    case FTrans(i) => 0 <= i < 3
    case FRot(i) => 0 <= i < 3
    case FInv(i) => 0 <= i < 6
    case FDead(i) => 0 <= i < MAX_AXES
    case FAxis(i) => 0 <= i < MAX_AXES
    case FBn(i) => 0 <= i < MAX_BUTTONS
    case FHold(i) => 0 <= i < MAX_BUTTONS
    case FAct(i) => 0 <= i < MAX_BUTTONS
    case FKb(i) => 0 <= i < MAX_BUTTONS
    case _ => true
  }

  function Get(c: Cfg<real>, f: Field): Val
    requires c.Shaped() && InRange(f)
  {
    match f
    case FSens => R(c.sensitivity)
    case FTrans(i) => R(c.sensTrans[i])
    case FRot(i) => R(c.sensRot[i])
    case FDead(i) => I(c.dead[i])
    case FInv(i) => B(c.invert[i])
    case FAxis(i) => I(c.mapAxis[i])
    case FBn(i) => I(c.mapButton[i])
    case FHold(i) => I(c.mapHold[i])
    case FAct(i) => I(c.bnact[i])
    case FKb(i) => S(c.kbmapStr[i])
    case FSwap => I(c.swapyz)
    case FLed => I(c.led)
    case FGrab => I(c.grab)
    case FSerial => S(c.serial)
    case FRepeat => I(c.repeat)
    case FTimeout => I(c.holdTimeout)
    case FSock => S(c.sockpath)
    case FX11 => I(c.kbemuX11)
  }

  ghost predicate SameFields(a: Cfg<real>, b: Cfg<real>) {
    && a.Shaped() && b.Shaped()
    && forall f :: InRange(f) ==> Get(a, f) == Get(b, f)
  }

  lemma SameScalars(a: Cfg<real>, b: Cfg<real>)
    requires SameFields(a, b)
    ensures a.sensitivity == b.sensitivity && a.swapyz == b.swapyz && a.led == b.led && a.grab == b.grab
    ensures a.repeat == b.repeat && a.holdTimeout == b.holdTimeout && a.kbemuX11 == b.kbemuX11
  {
    assert Get(a, FSens) == Get(b, FSens) && Get(a, FSwap) == Get(b, FSwap) && Get(a, FLed) == Get(b, FLed);
    assert Get(a, FGrab) == Get(b, FGrab) && Get(a, FRepeat) == Get(b, FRepeat);
    assert Get(a, FTimeout) == Get(b, FTimeout) && Get(a, FX11) == Get(b, FX11);
  }

  lemma SameStrings(a: Cfg<real>, b: Cfg<real>)
    requires SameFields(a, b)
    ensures a.serial == b.serial && a.sockpath == b.sockpath
  {
    assert Get(a, FSerial) == Get(b, FSerial) && Get(a, FSock) == Get(b, FSock);
  }

  lemma SameAxes(a: Cfg<real>, b: Cfg<real>)
    requires SameFields(a, b)
    ensures a.sensTrans == b.sensTrans && a.sensRot == b.sensRot && a.invert == b.invert
  {
    forall i | 0 <= i < 3 ensures a.sensTrans[i] == b.sensTrans[i] { assert Get(a, FTrans(i)) == Get(b, FTrans(i)); }
    forall i | 0 <= i < 3 ensures a.sensRot[i] == b.sensRot[i] { assert Get(a, FRot(i)) == Get(b, FRot(i)); }
    forall i | 0 <= i < 6 ensures a.invert[i] == b.invert[i] { assert Get(a, FInv(i)) == Get(b, FInv(i)); }
  }

  lemma SameDevAxes(a: Cfg<real>, b: Cfg<real>)
    requires SameFields(a, b)
    ensures a.dead == b.dead && a.mapAxis == b.mapAxis
  {
    forall i | 0 <= i < MAX_AXES ensures a.dead[i] == b.dead[i] { assert Get(a, FDead(i)) == Get(b, FDead(i)); }
    forall i | 0 <= i < MAX_AXES ensures a.mapAxis[i] == b.mapAxis[i] { assert Get(a, FAxis(i)) == Get(b, FAxis(i)); }
  }

  lemma SameButtons(a: Cfg<real>, b: Cfg<real>)
    requires SameFields(a, b)
    ensures a.mapButton == b.mapButton && a.mapHold == b.mapHold
  {
    forall i | 0 <= i < MAX_BUTTONS
      ensures a.mapButton[i] == b.mapButton[i]
    {
      assert Get(a, FBn(i)) == Get(b, FBn(i));
    }
    forall i | 0 <= i < MAX_BUTTONS
      ensures a.mapHold[i] == b.mapHold[i]
    {
      assert Get(a, FHold(i)) == Get(b, FHold(i));
    }
  }

  lemma SameActions(a: Cfg<real>, b: Cfg<real>)
    requires SameFields(a, b)
    ensures a.bnact == b.bnact && a.kbmapStr == b.kbmapStr
  {
    forall i | 0 <= i < MAX_BUTTONS ensures a.bnact[i] == b.bnact[i] { assert Get(a, FAct(i)) == Get(b, FAct(i)); }
    forall i | 0 <= i < MAX_BUTTONS ensures a.kbmapStr[i] == b.kbmapStr[i] { assert Get(a, FKb(i)) == Get(b, FKb(i)); }
  }

  lemma AllFields(a: Cfg<real>, b: Cfg<real>)
    requires SameFields(a, b) && a.devid == b.devid
    ensures a == b
  {
    hide SameFields;
    SameScalars(a, b);
    SameStrings(a, b);
    SameAxes(a, b);
    SameDevAxes(a, b);
    SameButtons(a, b);
    SameActions(a, b);
  }

  /** Which options store into which fields. */
  predicate Affects(k: Key, f: Field) {
    match f
    case FSens => k.Sens?
    case FTrans(i) => k.SensTrans? || k == SensT(i)
    case FRot(i) => k.SensRot? || k == SensR(i)
    case FDead(i) => k.DeadZone? || k == DeadZoneN(i)
    case FInv(i) => if i < 3 then k.InvTrans? else k.InvRot?
    case FAxis(i) => k == AxisMap(i)
    case FBn(i) => k == BnMap(i)
    case FHold(i) => k == BnHold(i)
    case FAct(i) => k == BnAct(i)
    case FKb(i) => k == KbMap(i)
    case FSwap => k.SwapYZ?
    case FLed => k.Led?
    case FGrab => k.Grab?
    case FSerial => k.Serial?
    case FRepeat => k.Repeat?
    case FTimeout => k.Hold?
    case FSock => k.SockPath?
    case FX11 => false
  }

  lemma FrameFloat(k: Key, val: string, st: Reader, f: Field)
    requires st.Valid() && Saved(k) && InRange(f) && !Affects(k, f)
    requires k.Sens? || k.SensTrans? || k.SensT? || k.SensRot? || k.SensR?
    ensures Get(StoreFloat(k, val, st).st.cfg, f) == Get(st.cfg, f)
  {
    hide ScanInt, ScanReal, BoolWord, ScanDevId, ParseBnact;
  }

  lemma FrameDead(k: Key, val: string, st: Reader, f: Field)
    requires st.Valid() && Saved(k) && InRange(f) && !Affects(k, f) && (k.DeadZone? || k.DeadZoneN?)
    ensures Get(StoreDead(k, val, st).st.cfg, f) == Get(st.cfg, f)
  {
    hide ScanInt, ScanReal, BoolWord, ScanDevId, ParseBnact;
  }

  lemma FrameInvert(k: Key, val: string, st: Reader, f: Field)
    requires st.Valid() && Saved(k) && InRange(f) && !Affects(k, f) && (k.InvRot? || k.InvTrans?)
    ensures Get(StoreInvert(k, val, st).st.cfg, f) == Get(st.cfg, f)
  {
    hide ScanInt, ScanReal, BoolWord, ScanDevId, ParseBnact;
  }

  lemma FrameMap(k: Key, val: string, st: Reader, f: Field)
    requires st.Valid() && Saved(k) && InRange(f) && !Affects(k, f)
    requires k.AxisMap? || k.BnMap? || k.BnHold? || k.BnAct? || k.KbMap?
    ensures Get(StoreMap(k, val, st).st.cfg, f) == Get(st.cfg, f)
  {
    hide ScanInt, ScanReal, BoolWord, ScanDevId, ParseBnact;
  }

  lemma FrameFlag(k: Key, val: string, st: Reader, f: Field)
    requires st.Valid() && Saved(k) && InRange(f) && !Affects(k, f)
    requires k.Repeat? || k.Hold? || k.SwapYZ? || k.Led? || k.Grab? || k.Serial? || k.DevId? || k.SockPath?
    ensures Get(StoreFlag(k, val, st).st.cfg, f) == Get(st.cfg, f)
  {
    hide ScanInt, ScanReal, BoolWord, ScanDevId, ParseBnact;
  }

  /** Storing an option leaves the fields of other options alone. */
  lemma StoreFrame(k: Key, val: string, st: Reader, f: Field)
    requires st.Valid() && Saved(k) && InRange(f) && !Affects(k, f)
    ensures Get(ParseOption(k, val, st).st.cfg, f) == Get(st.cfg, f)
  {
    hide StoreFloat, StoreDead, StoreInvert, StoreMap, StoreFlag, Get, Affects;
    if k.Sens? || k.SensTrans? || k.SensT? || k.SensRot? || k.SensR? {
      FrameFloat(k, val, st, f);
    } else if k.DeadZone? || k.DeadZoneN? {
      FrameDead(k, val, st, f);
    } else if k.InvRot? || k.InvTrans? {
      FrameInvert(k, val, st, f);
    } else if k.AxisMap? || k.BnMap? || k.BnHold? || k.BnAct? || k.KbMap? {
      FrameMap(k, val, st, f);
    } else {
      FrameFlag(k, val, st, f);
    }
  }

  lemma StoreDevs(k: Key, val: string, st: Reader)
    requires st.Valid() && Single(k)
    ensures var r := ParseOption(k, val, st).st; r.numDev == st.numDev && r.cfg.devid == st.cfg.devid
  {
    hide ScanInt, ScanReal, BoolWord, ScanDevId, ParseBnact;
  }

  // ---- one saved option is read back ------------------------------------------------------

  lemma WordIs(w: string, tail: string)
    requires w != "" && SepFree(w) && (tail != "" ==> IsSep(tail[0]))
    ensures Word(w + tail) == w
  {
    hide Span;
    StrtokIs("", w, tail);
    assert "" + w + tail == w + tail;
  }

  lemma WordOfWord(w: string)
    requires w != "" && SepFree(w)
    ensures Word(w) == w
  {
    hide Strtok;
    WordIs(w, "");
    assert w + "" == w;
  }

  /** The fields of Normal(c), one by one. */
  function NormalField(c: Cfg<real>, f: Field): Val
    requires c.Shaped() && InRange(f)
  {
    match f
    case FSens => R(Grid(c.sensitivity))
    case FTrans(i) => R(Grid(c.sensTrans[i]))
    case FRot(i) => R(Grid(c.sensRot[i]))
    case FAxis(i) => I(if 0 <= c.mapAxis[i] < 6 then c.mapAxis[i] else i)
    case FBn(i) => I(if ButtonIdx(c.mapButton[i]) then c.mapButton[i] else i)
    case FHold(i) => I(if ButtonIdx(c.mapHold[i]) then c.mapHold[i] else -1)
    case FAct(i) => I(if 0 <= c.bnact[i] < MAX_BNACT then c.bnact[i] else BNACT_NONE)
    case FKb(i) => S(Word(c.kbmapStr[i]))
    case FSwap => I(if c.swapyz != 0 then 1 else 0)
    case FLed => I(if c.led == LED_OFF || c.led == LED_AUTO then c.led else LED_ON)
    case FGrab => I(if c.grab != 0 then 1 else 0)
    case FSerial => S(Word(c.serial))
    case FTimeout => I(if c.holdTimeout < 0 then 350 else c.holdTimeout)
    case FSock => S(Word(c.sockpath))
    case FX11 => I(0)
    case _ => Get(c, f)
  }

  lemma NormalGet(c: Cfg<real>, f: Field)
    requires c.Shaped() && InRange(f)
    ensures Get(Normal(c), f) == NormalField(c, f)
  {
    hide Grid, Word;
  }

  function DefaultField(f: Field): Val {
    match f
    case FSens => R(1.0)
    case FTrans(_) => R(1.0)
    case FRot(_) => R(1.0)
    case FDead(i) => I(DefaultDeadAt(i))
    case FInv(_) => B(false)
    case FAxis(i) => I(i)
    case FBn(i) => I(i)
    case FHold(_) => I(-1)
    case FAct(_) => I(BNACT_NONE)
    case FKb(_) => S("")
    case FSwap => I(0)
    case FLed => I(LED_ON)
    case FGrab => I(1)
    case FSerial => S("")
    case FRepeat => I(-1)
    case FTimeout => I(350)
    case FSock => S("")
    case FX11 => I(0)
  }

  lemma DefaultGet(f: Field)
    requires InRange(f)
    ensures Get(DefaultCfg(1.0), f) == DefaultField(f)
  {
    hide DefaultDeadAt;
  }

  // the field holds its default or already the final value
  predicate Pending(st: Reader, c: Cfg<real>, f: Field)
    requires st.Valid() && c.Shaped() && InRange(f)
  {
    Get(st.cfg, f) == DefaultField(f) || Get(st.cfg, f) == NormalField(c, f)
  }

  lemma ReadBackFloat(k: Key, c: Cfg<real>, st: Reader, f: Field)
    requires c.Shaped() && st.Valid() && Saved(k) && InRange(f) && Affects(k, f) && Wanted(c, k).Some?
    requires k.Sens? || k.SensTrans? || k.SensT? || k.SensRot? || k.SensR?
    ensures Get(ParseOption(k, Word(Wanted(c, k).value), st).st.cfg, f) == NormalField(c, f)
  {
    hide StoreDead, StoreMap, StoreInvert, StoreFlag, ScanReal, Fixed3, Strtok, Thousandths;
    var x := match k
      case Sens => c.sensitivity
      case SensTrans => c.sensTrans[0]
      case SensT(a) => c.sensTrans[a]
      case SensRot => c.sensRot[0]
      case SensR(a) => c.sensRot[a]
      case _ => 0.0;
    ScanOfFixed3(Thousandths(x));
    WordOfWord(Float3(x));
  }

  lemma ReadBackDead(k: Key, c: Cfg<real>, st: Reader, f: Field)
    requires c.Shaped() && st.Valid() && Saved(k) && InRange(f) && Affects(k, f) && Wanted(c, k).Some? && Ints(c.dead)
    requires k.DeadZone? || k.DeadZoneN?
    ensures Get(ParseOption(k, Word(Wanted(c, k).value), st).st.cfg, f) == NormalField(c, f)
  {
    hide StoreFloat, StoreMap, StoreInvert, StoreFlag, Float3, ScanInt, Dec, Strtok, IsBoolVal, DefaultDeadAt;
    var v := if k.DeadZone? then c.dead[0] else c.dead[k.i];
    ScanOfDec(v);
    WordOfWord(Dec(v));
    if k.DeadZone? { UniformAll(c.dead, f.i); }
  }

  lemma {:induction false} UniformAll(d: seq<int>, i: nat)
    requires Uniform(d) && i < |d|
    ensures d[i] == d[0]
  {
    if i > 0 { UniformAll(d, i - 1); }
  }

  lemma FlagsWord(x: bool, y: bool, z: bool)
    requires x || y || z
    ensures Word(Flags(x, y, z)) == Flags(x, y, z)
    ensures var s := Flags(x, y, z); ('x' in s <==> x) && ('y' in s <==> y) && ('z' in s <==> z)
  {
    hide Strtok, Word;
    WordOfWord(Flags(x, y, z));
  }

  lemma InvertWanted(c: Cfg<real>, k: Key)
    requires c.Shaped() && (k.InvRot? || k.InvTrans?)
    ensures var b := if k.InvRot? then 3 else 0;
            Wanted(c, k) ==
            When(c.invert[b] || c.invert[b + 1] || c.invert[b + 2],
                 Flags(c.invert[b], c.invert[b + 1], c.invert[b + 2]))
  {
    hide Flags;
  }

  /** An invert option switches on the axes it names and leaves the others. */
  lemma InvertAt(k: Key, w: string, st: Reader, i: nat)
    requires st.Valid() && (k.InvRot? || k.InvTrans?) && i < 6
    ensures var b := if k.InvRot? then 3 else 0;
            var v, r := st.cfg.invert, ParseOption(k, w, st).st.cfg.invert;
            |r| == 6 && r[i] == (v[i] || (i == b && 'x' in w) || (i == b + 1 && 'y' in w) || (i == b + 2 && 'z' in w))
  {
    hide StoreFloat, StoreMap, StoreDead, StoreFlag;
  }

  lemma InvertGet(c: Cfg<real>, i: nat)
    requires c.Shaped() && i < 6
    ensures Get(c, FInv(i)) == B(c.invert[i]) == NormalField(c, FInv(i)) && DefaultField(FInv(i)) == B(false)
  {
  }

  lemma ReadBackInvert(k: Key, c: Cfg<real>, st: Reader, f: Field)
    requires c.Shaped() && st.Valid() && Saved(k) && InRange(f) && Affects(k, f) && Wanted(c, k).Some?
    requires k.InvRot? || k.InvTrans?
    requires Pending(st, c, f)
    ensures Get(ParseOption(k, Word(Wanted(c, k).value), st).st.cfg, f) == NormalField(c, f)
  {
    hide ParseOption, Flags, Word, Wanted, Get, NormalField, DefaultField;
    var b := if k.InvRot? then 3 else 0;
    var w := Word(Wanted(c, k).value);
    InvertWanted(c, k);
    FlagsWord(c.invert[b], c.invert[b + 1], c.invert[b + 2]);
    InvertAt(k, w, st, f.i);
    InvertGet(c, f.i);
    InvertGet(st.cfg, f.i);
    InvertGet(ParseOption(k, w, st).st.cfg, f.i);
  }

  lemma BnactWord(a: int)
    ensures Word(BnactName(a)) == BnactName(a)
    ensures ParseBnact(BnactName(a)) == Some(if 0 <= a < MAX_BNACT then a else BNACT_NONE)
  {
    hide Strtok, Word;
    WordOfWord(BnactName(a));
  }

  lemma ReadBackMap(k: Key, c: Cfg<real>, st: Reader, f: Field)
    requires c.Shaped() && st.Valid() && Saved(k) && InRange(f) && Affects(k, f) && Wanted(c, k).Some?
    requires Ints(c.mapAxis) && Ints(c.mapButton) && Ints(c.mapHold)
    requires k.AxisMap? || k.BnMap? || k.BnHold?
    requires Pending(st, c, f)
    ensures Get(ParseOption(k, Word(Wanted(c, k).value), st).st.cfg, f) == NormalField(c, f)
  {
    hide StoreFloat, StoreDead, StoreInvert, StoreFlag, Float3, Uniform, All3, Flags, ScanInt, Dec, Word, IsBoolVal,
      Thousandths, DefaultDeadAt, Grid;
    var v := match k
      case AxisMap(i) => c.mapAxis[i]
      case BnMap(i) => c.mapButton[i]
      case BnHold(i) => c.mapHold[i]
      case _ => 0;
    ScanOfDec(v);
    WordOfWord(Dec(v));
  }

  lemma ReadBackButton(k: Key, c: Cfg<real>, st: Reader, f: Field)
    requires c.Shaped() && st.Valid() && Saved(k) && InRange(f) && Affects(k, f) && Wanted(c, k).Some?
    requires k.BnAct? || k.KbMap?
    ensures Get(ParseOption(k, Word(Wanted(c, k).value), st).st.cfg, f) == NormalField(c, f)
  {
    hide StoreFloat, StoreDead, StoreInvert, StoreFlag, Float3, Uniform, All3, Flags, Dec, ScanInt, Word, IsBoolVal,
      BnactName, ParseBnact, Thousandths, DefaultDeadAt, Grid;
    if k.BnAct? { BnactWord(c.bnact[k.i]); }
  }

  lemma SwitchWord(s: string)
    requires s in ["true", "false", "on", "off", "auto"]
    ensures Word(s) == s && ScanInt(s) == None && ScanReal(s) == None
    ensures BoolWord(s) == if s == "auto" then None else Some(if s == "true" || s == "on" then 1 else 0)
  {
    hide Strtok, Word, Value;
    WordOfWord(s);
    assert s[0] != '-' && s[0] != '+' && s[0] != '.' && !IsSpace(s[0]) && !IsDigit(s[0], 10);
  }

  lemma SwitchWanted(c: Cfg<real>, k: Key)
    requires c.Shaped() && (k.SwapYZ? || k.Led? || k.Grab?)
    ensures match Wanted(c, k)
            case None => if k.Led? then c.led == LED_ON else if k.Grab? then c.grab == 1 else c.swapyz == 0
            case Some(v) =>
              if k.Led?
              then c.led != LED_ON && v == (if c.led == LED_AUTO then "auto" else if c.led != 0 then "on" else "off")
              else if k.Grab? then c.grab != 1 && v == (if c.grab != 0 then "true" else "false")
              else c.swapyz != 0 && v == "true"
  {
  }

  // a switch is stored as the truth value of its word, or for LEDs as auto
  lemma StoreSwitch(k: Key, w: string, st: Reader)
    requires st.Valid() && (k.SwapYZ? || k.Led? || k.Grab?) && ScanInt(w) == None && ScanReal(w) == None
    requires BoolWord(w).Some? || (k.Led? && w == "auto")
    ensures var v := if BoolWord(w).Some? then BoolWord(w).value else LED_AUTO;
            var r := ParseOption(k, w, st).st.cfg;
            if k.SwapYZ? then r.swapyz == v else if k.Led? then r.led == v else r.grab == v
  {
    hide ScanInt, ScanReal, BoolWord;
  }

  lemma SwitchGet(c: Cfg<real>)
    requires c.Shaped()
    ensures Get(c, FSwap) == I(c.swapyz) && Get(c, FLed) == I(c.led) && Get(c, FGrab) == I(c.grab)
    ensures NormalField(c, FSwap) == I(if c.swapyz != 0 then 1 else 0)
    ensures NormalField(c, FGrab) == I(if c.grab != 0 then 1 else 0)
    ensures NormalField(c, FLed) == I(if c.led == LED_OFF || c.led == LED_AUTO then c.led else LED_ON)
  {
  }

  lemma ReadBackSwitch(k: Key, c: Cfg<real>, st: Reader, f: Field)
    requires c.Shaped() && st.Valid() && Saved(k) && InRange(f) && Affects(k, f) && Wanted(c, k).Some?
    requires k.SwapYZ? || k.Led? || k.Grab?
    ensures Get(ParseOption(k, Word(Wanted(c, k).value), st).st.cfg, f) == NormalField(c, f)
  {
    hide ParseOption, ScanInt, ScanReal, Word, BoolWord, Wanted, Get, NormalField;
    var w := Wanted(c, k).value;
    SwitchWanted(c, k);
    SwitchWord(w);
    StoreSwitch(k, w, st);
    SwitchGet(c);
    SwitchGet(ParseOption(k, w, st).st.cfg);
  }

  lemma ReadBackNumber(k: Key, c: Cfg<real>, st: Reader, f: Field)
    requires c.Shaped() && st.Valid() && InRange(f) && Affects(k, f) && Wanted(c, k).Some?
    requires IsInt(c.holdTimeout) && IsInt(c.repeat) && (k.Repeat? || k.Hold?)
    requires Pending(st, c, f)
    ensures Get(ParseOption(k, Word(Wanted(c, k).value), st).st.cfg, f) == NormalField(c, f)
  {
    hide StoreFloat, StoreDead, StoreInvert, StoreMap, ScanInt, ScanReal, Dec, Word, BoolWord;
    var n := if k.Repeat? then c.repeat else c.holdTimeout;
    ScanOfDec(n);
    WordOfWord(Dec(n));
    WordIs(Dec(n), "\n");
  }

  lemma ReadBackText(k: Key, c: Cfg<real>, st: Reader, f: Field)
    requires c.Shaped() && st.Valid() && InRange(f) && Affects(k, f) && Wanted(c, k).Some? && (k.Serial? || k.SockPath?)
    ensures Get(ParseOption(k, Word(Wanted(c, k).value), st).st.cfg, f) == NormalField(c, f)
  {
    hide StoreFloat, StoreDead, StoreInvert, StoreMap, Word, IntVal, IsIntVal, IsBoolVal;
  }

  lemma ReadBackRest(k: Key, c: Cfg<real>, st: Reader, f: Field)
    requires c.Shaped() && st.Valid() && Saved(k) && InRange(f) && Affects(k, f) && Wanted(c, k).Some?
    requires IsInt(c.holdTimeout) && IsInt(c.repeat)
    requires k.Repeat? || k.Hold? || k.Serial? || k.SockPath?
    requires Pending(st, c, f)
    ensures Get(ParseOption(k, Word(Wanted(c, k).value), st).st.cfg, f) == NormalField(c, f)
  {
    hide ParseOption, Wanted, Word, Get, NormalField, Affects, Pending;
    if k.Repeat? || k.Hold? { ReadBackNumber(k, c, st, f); } else { ReadBackText(k, c, st, f); }
  }

  /** A printed option, parsed, gives the field its final value. */
  lemma ReadBack(k: Key, c: Cfg<real>, st: Reader, f: Field)
    requires Printable(c) && st.Valid() && Single(k) && InRange(f) && Affects(k, f) && Wanted(c, k).Some?
    requires Pending(st, c, f)
    ensures Get(ParseOption(k, Word(Wanted(c, k).value), st).st.cfg, f) == NormalField(c, f)
  {
    hide Wanted, ParseOption, Word, Get, NormalField, Affects, Pending;
    match k
    case Sens => ReadBackFloat(k, c, st, f);
    case SensTrans => ReadBackFloat(k, c, st, f);
    case SensT(_) => ReadBackFloat(k, c, st, f);
    case SensRot => ReadBackFloat(k, c, st, f);
    case SensR(_) => ReadBackFloat(k, c, st, f);
    case DeadZone => ReadBackDead(k, c, st, f);
    case DeadZoneN(_) => ReadBackDead(k, c, st, f);
    case InvRot => ReadBackInvert(k, c, st, f);
    case InvTrans => ReadBackInvert(k, c, st, f);
    case AxisMap(_) => ReadBackMap(k, c, st, f);
    case BnMap(_) => ReadBackMap(k, c, st, f);
    case BnHold(_) => ReadBackMap(k, c, st, f);
    case BnAct(_) => ReadBackButton(k, c, st, f);
    case KbMap(_) => ReadBackButton(k, c, st, f);
    case SwapYZ => ReadBackSwitch(k, c, st, f);
    case Led => ReadBackSwitch(k, c, st, f);
    case Grab => ReadBackSwitch(k, c, st, f);
    case Repeat => ReadBackRest(k, c, st, f);
    case Hold => ReadBackRest(k, c, st, f);
    case Serial => ReadBackRest(k, c, st, f);
    case SockPath => ReadBackRest(k, c, st, f);
    case _ =>
  }

  // ---- one line ----------------------------------------------------------------------------

  lemma StrtokSkip(pre: string, s: string)
    requires forall i :: 0 <= i < |pre| ==> IsSep(pre[i])
    ensures Strtok(pre + s) == Strtok(s)
  {
    var n := Span(s, Sep);
    var t := pre + s;
    SpanIs(t, Sep, |pre| + n);
    assert t[|pre| + n..] == s[n..];
  }

  /** A printed line is taken apart into its option name and the first word of its value. */
  lemma TokensOfLine(name: string, v: string)
    requires Name(name)
    ensures Tokens(name + " = " + v) == if Word(v) == "" then None else Some((name, Word(v)))
  {
    hide Strtok;
    var t := name + " = " + v;
    assert t[0] == name[0];
    SpanIs(t, Indent, 0);
    assert t[0..] == t == "" + name + (" = " + v);
    StrtokIs("", name, " = " + v);
    StrtokSkip(" = ", v);
  }

  // the line without the newline that repeat-interval brings along
  function Body(t: string): string { if t != "" && t[|t| - 1] == '\n' then t[..|t| - 1] else t }

  lemma {:induction false} ReadLine(t: string, rest: string, st: Reader)
    requires st.Valid() && NoBreak(t) && |t| <= LINE_MAX
    ensures ReadFrom(t + "\n" + rest, st) == ReadFrom(rest, ParseLine(t, st).st)
  {
    hide ParseLine;
    var text := t + "\n" + rest;
    SpanIs(text, Other('\n'), |t|);
    var n := FgetsLength(text);
    if |t| < LINE_MAX {
      assert text[..n] == t + "\n" && text[n..] == rest;
      ChopIs(t, true);
    } else {
      // the newline does not fit the buffer and is read as a line of its own
      assert text[..n] == t && text[n..] == "\n" + rest;
      ChopIs(t, false);
      ReadBlank(rest, ParseLine(t, st).st);
    }
  }

  lemma ChopIs(t: string, newline: bool)
    requires NoBreak(t)
    ensures Chop(if newline then t + "\n" else t) == t
  {
    var b := if newline then t + "\n" else t;
    SpanIs(b, Other('\r'), |b|);
    SpanIs(b, Other('\n'), |t|);
  }

  lemma ReadBlank(rest: string, st: Reader)
    requires st.Valid()
    ensures ReadFrom("\n" + rest, st) == ReadFrom(rest, st)
  {
    hide Strtok;
    var text := "\n" + rest;
    SpanIs(text, Other('\n'), 0);
    assert text[..1] == "" + "\n" && text[1..] == rest;
    ChopIs("", true);
    assert Tokens("") == None;
  }

  // a line as saving leaves it, with or without the extra newline
  predicate Readable(t: string) { NoBreak(Body(t)) && |t| <= LINE_MAX }

  lemma ReadBody(t: string, rest: string, st: Reader)
    requires st.Valid() && Readable(t)
    ensures ReadFrom(t + "\n" + rest, st) == ReadFrom(rest, ParseLine(Body(t), st).st)
  {
    hide ReadFrom, ParseLine, NoBreak;
    if Body(t) != t {
      assert t == Body(t) + "\n";
      assert t + "\n" + rest == Body(t) + "\n" + ("\n" + rest);
      ReadLine(Body(t), "\n" + rest, st);
      ReadBlank(rest, ParseLine(Body(t), st).st);
    } else {
      ReadLine(t, rest, st);
    }
  }

  // ---- the whole table -----------------------------------------------------------------------

  /** The reader after the lines of the table. */
  function Fold(lines: seq<Line>): (st: Reader)
    ensures st.Valid()
  {
    if lines == [] then Start()
    else
      var before := Fold(lines[..|lines| - 1]);
      match lines[|lines| - 1].text
      case None => before
      case Some(t) => ParseLine(Body(t), before).st
  }

  ghost predicate AllReadable(lines: seq<Line>) {
    forall i :: 0 <= i < |lines| && lines[i].text.Some? ==> Readable(lines[i].text.value)
  }

  lemma {:induction false} ReadText(lines: seq<Line>, tail: string)
    requires AllReadable(lines)
    ensures ReadFrom(Text(lines) + tail, Start()) == ReadFrom(tail, Fold(lines))
  {
    hide ReadFrom, ParseLine, Readable, Start;
    if lines == [] {
      assert "" + tail == tail;
    } else {
      var pre, last := lines[..|lines| - 1], lines[|lines| - 1];
      match last.text
      case None =>
        assert Text(pre) + "" == Text(pre);
        ReadText(pre, tail);
      case Some(t) =>
        assert Text(lines) + tail == Text(pre) + (t + "\n" + tail);
        ReadText(pre, t + "\n" + tail);
        ReadBody(t, tail, Fold(pre));
    }
  }

  // ---- the lines of a saved table ---------------------------------------------------------------

  lemma FloatFits(k: Key, x: real)
    requires Single(k) && Printable3(x)
    ensures |LineOf(k, Float3(x))| <= LINE_MAX && NoBreak(Float3(x))
  {
    hide Fixed3, KeyText, Thousandths, Pow10;
    Fixed3Length(Thousandths(x));
    KeyTextIsName(k);
  }

  lemma DecFits(k: Key, n: int)
    requires Single(k) && IsInt(n)
    ensures |LineOf(k, Dec(n))| < LINE_MAX && NoBreak(Dec(n))
  {
    hide Dec, KeyText;
    DecLength(n);
    KeyTextIsName(k);
  }

  lemma ShortFits(k: Key, s: string)
    requires Single(k) && |s| <= 20 && NoBreak(s)
    ensures |LineOf(k, s)| <= LINE_MAX
  {
    hide KeyText;
    KeyTextIsName(k);
  }

  lemma SensNameFits(a: int)
    requires a == BNACT_SENS_INC || a == BNACT_SENS_DEC || a == BNACT_SENS_RESET
    ensures NoBreak(BnactName(a)) && BnactName(a) != "" && |BnactName(a)| <= 20
  {
  }

  lemma NameFits(a: int)
    ensures NoBreak(BnactName(a)) && BnactName(a) != "" && |BnactName(a)| <= 20
  {
    if a == BNACT_SENS_INC || a == BNACT_SENS_DEC || a == BNACT_SENS_RESET { SensNameFits(a); }
  }

  lemma ShortWanted(c: Cfg<real>, k: Key)
    requires c.Shaped() && Single(k) && Wanted(c, k).Some?
    requires k.InvTrans? || k.InvRot? || k.SwapYZ? || k.Led? || k.Grab? || k.BnAct?
    ensures var v := Wanted(c, k).value; |LineOf(k, v)| <= LINE_MAX && NoBreak(v) && v != ""
  {
    hide LineOf, Float3, Dec, Uniform, All3, KeyText, DefaultDeadAt, BnactName;
    if k.BnAct? { NameFits(c.bnact[k.i]); }
    ShortFits(k, Wanted(c, k).value);
  }

  /** Every printed value fits on its line and holds no line break, but for the newline after repeat-interval. */
  lemma WantedFits(c: Cfg<real>, k: Key)
    requires Printable(c) && Single(k) && Wanted(c, k).Some?
    ensures var v := Wanted(c, k).value;
            && |LineOf(k, v)| <= LINE_MAX
            && (if k.Repeat? then v == Dec(c.repeat) + "\n" && NoBreak(Dec(c.repeat)) else NoBreak(v) && v != "")
  {
    hide LineOf, Float3, Dec, Uniform, All3, KeyText, DefaultDeadAt, Printable3, NoBreak, Flags, BnactName;
    match k
    case Sens => FloatFits(k, c.sensitivity);
    case SensTrans => FloatFits(k, c.sensTrans[0]);
    case SensT(a) => FloatFits(k, c.sensTrans[a]);
    case SensRot => FloatFits(k, c.sensRot[0]);
    case SensR(a) => FloatFits(k, c.sensRot[a]);
    case DeadZone => DecFits(k, c.dead[0]);
    case DeadZoneN(i) => DecFits(k, c.dead[i]);
    case Repeat => DecFits(k, c.repeat); LineOfLength(k, Dec(c.repeat));
    case Hold => DecFits(k, c.holdTimeout);
    case AxisMap(i) => DecFits(k, c.mapAxis[i]);
    case BnMap(i) => DecFits(k, c.mapButton[i]);
    case BnHold(i) => DecFits(k, c.mapHold[i]);
    case KbMap(_) =>
    case Serial =>
    case SockPath =>
    case InvTrans => ShortWanted(c, k);
    case InvRot => ShortWanted(c, k);
    case SwapYZ => ShortWanted(c, k);
    case Led => ShortWanted(c, k);
    case Grab => ShortWanted(c, k);
    case BnAct(_) => ShortWanted(c, k);
    case _ =>
  }

  lemma LineOfLength(k: Key, v: string)
    ensures |LineOf(k, v + "\n")| == |LineOf(k, v)| + 1
  {
  }

  // ---- folding it -----------------------------------------------------------------------------------

  // some line of the table stores into the field
  ghost predicate Stored(lines: seq<Line>, f: Field) {
    exists i :: 0 <= i < |lines| && lines[i].text.Some? && Affects(lines[i].tag, f)
  }

  lemma EmptyWord(c: Cfg<real>, k: Key, f: Field)
    requires Printable(c) && Single(k) && InRange(f) && Affects(k, f)
    requires Wanted(c, k).Some? && Word(Wanted(c, k).value) == ""
    ensures NormalField(c, f) == DefaultField(f)
  {
    hide Strtok, Wanted, NormalField, DefaultField, Affects;
    if k.KbMap? || k.Serial? || k.SockPath? { EmptyText(c, k, f); } else { NonEmptyWord(c, k); }
  }

  lemma EmptyText(c: Cfg<real>, k: Key, f: Field)
    requires c.Shaped() && (k.KbMap? || k.Serial? || k.SockPath?) && Single(k) && InRange(f) && Affects(k, f)
    requires Wanted(c, k).Some? && Word(Wanted(c, k).value) == ""
    ensures NormalField(c, f) == DefaultField(f)
  {
    hide Strtok, Float3, Dec, Flags, BnactName, Grid, Uniform, All3, DefaultDeadAt;
  }

  lemma NonEmptyWord(c: Cfg<real>, k: Key)
    requires c.Shaped() && Single(k) && !k.KbMap? && !k.Serial? && !k.SockPath? && Wanted(c, k).Some?
    ensures Word(Wanted(c, k).value) != ""
  {
    hide Word, Float3, Dec, Flags, BnactName, Uniform, All3, DefaultDeadAt;
    match k
    case Sens => WordOfWord(Float3(c.sensitivity));
    case SensTrans => WordOfWord(Float3(c.sensTrans[0]));
    case SensT(a) => WordOfWord(Float3(c.sensTrans[a]));
    case SensRot => WordOfWord(Float3(c.sensRot[0]));
    case SensR(a) => WordOfWord(Float3(c.sensRot[a]));
    case DeadZone => WordOfWord(Dec(c.dead[0]));
    case DeadZoneN(i) => WordOfWord(Dec(c.dead[i]));
    case Repeat => WordIs(Dec(c.repeat), "\n");
    case Hold => WordOfWord(Dec(c.holdTimeout));
    case InvTrans => FlagsNonEmpty(c.invert[0], c.invert[1], c.invert[2]);
    case InvRot => FlagsNonEmpty(c.invert[3], c.invert[4], c.invert[5]);
    case AxisMap(i) => WordOfWord(Dec(c.mapAxis[i]));
    case BnMap(i) => WordOfWord(Dec(c.mapButton[i]));
    case BnHold(i) => WordOfWord(Dec(c.mapHold[i]));
    case BnAct(i) => BnactNonEmpty(c.bnact[i]);
    case SwapYZ => WordOfWord(Wanted(c, k).value);
    case Led => WordOfWord(Wanted(c, k).value);
    case Grab => WordOfWord(Wanted(c, k).value);
    case _ =>
  }

  lemma FlagsNonEmpty(x: bool, y: bool, z: bool)
    requires x || y || z
    ensures Word(Flags(x, y, z)) != ""
  {
    hide Word;
    FlagsWord(x, y, z);
  }

  lemma BnactNonEmpty(a: int)
    ensures Word(BnactName(a)) != ""
  {
    hide Word;
    BnactWord(a);
  }

  // parsing the line of option k is storing the first word of its value
  lemma ParseSavedLine(c: Cfg<real>, k: Key, st: Reader)
    requires Printable(c) && Single(k) && st.Valid() && Wanted(c, k).Some?
    ensures var v := Wanted(c, k).value;
            ParseLine(Body(LineOf(k, v)), st) == if Word(v) == "" then Untagged(st) else ParseOption(k, Word(v), st)
  {
    hide Wanted, Tokens, ParseKey, ParseOption, KeyText, Word, NoBreak, Dec;
    var v := Wanted(c, k).value;
    WantedFits(c, k);
    KeyTextIsName(k);
    ParseOfKeyText(k);
    if k.Repeat? {
      var w := Dec(c.repeat);
      assert Body(LineOf(k, v)) == KeyText(k) + " = " + w by { assert LineOf(k, v) == KeyText(k) + " = " + w + "\n"; }
      TokensOfLine(KeyText(k), w);
      WordIs(w, "\n");
      WordOfWord(w);
    } else {
      BodyOfLine(k, v);
      TokensOfLine(KeyText(k), v);
    }
  }

  lemma BodyOfLine(k: Key, v: string)
    requires NoBreak(v) && v != ""
    ensures Body(LineOf(k, v)) == LineOf(k, v)
  {
    hide KeyText;
    assert LineOf(k, v)[|LineOf(k, v)| - 1] == v[|v| - 1];
  }

  // the invariant of the fold, for one field
  ghost predicate FieldOk(st: Reader, c: Cfg<real>, lines: seq<Line>, f: Field)
    requires st.Valid() && c.Shaped() && InRange(f)
  {
    Get(st.cfg, f) == if Stored(lines, f) then NormalField(c, f) else DefaultField(f)
  }

  lemma StoredSnoc(pre: seq<Line>, last: Line, f: Field)
    ensures Stored(pre + [last], f) <==> Stored(pre, f) || (last.text.Some? && Affects(last.tag, f))
  {
    hide Affects;
    var all := pre + [last];
    assert forall i :: 0 <= i < |pre| ==> all[i] == pre[i];
    assert all[|pre|] == last;
  }

  lemma FoldOption(c: Cfg<real>, pre: seq<Line>, last: Line, st: Reader, f: Field)
    requires Printable(c) && st.Valid() && InRange(f)
    requires FieldOk(st, c, pre, f)
    requires last.text.Some? && Single(last.tag)
    requires Wanted(c, last.tag).Some? && last.text.value == LineOf(last.tag, Wanted(c, last.tag).value)
    ensures FieldOk(ParseLine(Body(last.text.value), st).st, c, pre + [last], f)
  {
    hide Wanted, ParseLine, ParseOption, Word, Get, Affects, NormalField, DefaultField, Stored, LineOf;
    var k := last.tag;
    ParseSavedLine(c, k, st);
    StoredSnoc(pre, last, f);
    var w := Word(Wanted(c, k).value);
    if w == "" {
      if Affects(k, f) { EmptyWord(c, k, f); }
    } else if Affects(k, f) {
      ReadBack(k, c, st, f);
    } else {
      StoreFrame(k, w, st, f);
    }
  }

  // ---- device ids -----------------------------------------------------------------------------------------

  function PadDevs(ds: seq<(nat, nat)>): (r: seq<(int, int)>)
    ensures |r| == MAX_CUSTOM
    ensures forall i :: 0 <= i < MAX_CUSTOM ==>
              r[i] == if i < |ds| then (ToInt(ds[i].0), ToInt(ds[i].1)) else (-1, -1)
  {
    seq(MAX_CUSTOM, i requires 0 <= i => if i < |ds| then (ToInt(ds[i].0), ToInt(ds[i].1)) else (-1, -1))
  }

  predicate DevsOk(st: Reader, ds: seq<(nat, nat)>) {
    st.numDev == |ds| && st.cfg.devid == PadDevs(ds)
  }

  lemma ParseDevLine(l: Line, st: Reader)
    requires TidyLine(l) && Tagged(l, DevId) && st.Valid()
    ensures ParseLine(Body(l.text.value), st) == ParseOption(DevId, DevIdText(DevOf(l).value.0, DevOf(l).value.1), st)
    ensures Readable(l.text.value)
  {
    hide Tokens, ParseKey, ParseOption, DevIdText, DevOf, Word, Named;
    var w := DevIdText(DevOf(l).value.0, DevOf(l).value.1);
    KeyTextIsName(DevId);
    ParseOfKeyText(DevId);
    BodyOfLine(DevId, w);
    TokensOfLine(KeyText(DevId), w);
    WordOfWord(w);
    DevTextFits(DevOf(l).value.0, DevOf(l).value.1);
  }

  lemma Hex4Length(n: nat)
    requires n < UINT_LIMIT
    ensures |Hex4(n)| <= 10
  {
    assert Pow10(5) == 100_000 && Pow10(10) == 10_000_000_000;
    DigitsLength(n, 16, 10);
  }

  lemma DevTextFits(v: int, p: int)
    ensures |LineOf(DevId, DevIdText(v, p))| <= LINE_MAX && NoBreak(LineOf(DevId, DevIdText(v, p)))
  {
    hide Hex4, ToUint;
    Hex4Length(ToUint(v));
    Hex4Length(ToUint(p));
  }

  lemma PadSnoc(ds: seq<(nat, nat)>, d: (nat, nat))
    ensures PadDevs(ds + [d]) ==
              if |ds| < MAX_CUSTOM then PadDevs(ds)[|ds| := (ToInt(d.0), ToInt(d.1))] else PadDevs(ds)
  {
    hide ToInt;
  }

  // storing a printed device id takes the next place
  lemma StoreDevId(v: nat, p: nat, st: Reader)
    requires st.Valid() && ToUint(v) == v && ToUint(p) == p
    ensures ParseOption(DevId, DevIdText(v, p), st).st ==
            var d := (ToInt(v), ToInt(p));
            Reader(if st.numDev < MAX_CUSTOM then st.cfg.(devid := st.cfg.devid[st.numDev := d]) else st.cfg,
                   st.numDev + 1)
  {
    hide DevIdText, ScanDevId, ToInt, IntVal, IsIntVal, IsBoolVal;
    ScanOfDevId(v, p, "");
    assert "" + DevIdText(v, p) == DevIdText(v, p);
  }

  lemma FoldDevLine(l: Line, st: Reader, ds: seq<(nat, nat)>)
    requires TidyLine(l) && Tagged(l, DevId) && st.Valid() && DevsOk(st, ds)
    ensures DevsOk(ParseLine(Body(l.text.value), st).st, ds + [DevOf(l).value])
  {
    hide ParseLine, ParseOption, DevIdText, DevOf, Body, Named, ToInt, ToUint, PadDevs;
    var d := DevOf(l).value;
    PadSnoc(ds, d);
    ParseDevLine(l, st);
    DevOfUint(l);
    StoreDevId(d.0, d.1, st);
  }

  lemma HexUint(s: string)
    ensures ScanHex(s).Some? ==> ScanHex(s).value.0 < UINT_LIMIT
  {
    hide SkipSign, SkipHexPrefix, DigitRun, Value;
  }

  lemma ScannedUint(s: string)
    ensures ScanDevId(s).Some? ==> ScanDevId(s).value.0 < UINT_LIMIT && ScanDevId(s).value.1 < UINT_LIMIT
  {
    hide ScanHex;
    HexUint(s);
    if ScanHex(s).Some? && ScanHex(s).value.1 != "" { HexUint(ScanHex(s).value.1[1..]); }
  }

  lemma DevOfUint(l: Line)
    requires DevOf(l).Some?
    ensures ToUint(DevOf(l).value.0) == DevOf(l).value.0 && ToUint(DevOf(l).value.1) == DevOf(l).value.1
  {
    hide ToUint, ScanDevId, IndexOf;
    var t := l.text.value;
    ScannedUint(t[IndexOf(t, '=').value + 1..]);
  }

  // ---- what is read from a table that stands for a configuration -----------------------------------------------

  // a live line of such a table is a device line or spells out its option
  lemma LineOfTable(lines: seq<Line>, e: Effective, i: nat)
    requires StandsFor(lines, e) && Printable(e.cfg) && i < |lines| && lines[i].text.Some?
    ensures Readable(lines[i].text.value) && TidyLine(lines[i]) && Saved(lines[i].tag)
    ensures lines[i].tag != DevId ==>
              Wanted(e.cfg, lines[i].tag).Some?
              && lines[i].text.value == LineOf(lines[i].tag, Wanted(e.cfg, lines[i].tag).value)
  {
    hide Wanted, Lookup, Named, KeyText, DevOf, LineOf, NoBreak, Dec;
    var l := lines[i];
    assert TidyLine(l);
    if l.tag == DevId {
      ParseDevLine(l, Start());
    } else {
      LookupIs(lines, l.tag, i);
      WantedFits(e.cfg, l.tag);
      LineReadable(e.cfg, l.tag);
    }
  }

  lemma LineReadable(c: Cfg<real>, k: Key)
    requires Printable(c) && Single(k) && Wanted(c, k).Some?
    ensures Readable(LineOf(k, Wanted(c, k).value))
  {
    hide Wanted, Dec, KeyText;
    var v := Wanted(c, k).value;
    WantedFits(c, k);
    KeyTextIsName(k);
    if k.Repeat? {
      assert LineOf(k, v) == KeyText(k) + " = " + Dec(c.repeat) + "\n";
    } else {
      BodyOfLine(k, v);
    }
  }

  // one line, for one field
  lemma FoldLine(lines: seq<Line>, e: Effective, n: nat, f: Field)
    requires StandsFor(lines, e) && Printable(e.cfg) && n < |lines| && lines[n].text.Some? && InRange(f)
    requires FieldOk(Fold(lines[..n]), e.cfg, lines[..n], f)
    ensures FieldOk(ParseLine(Body(lines[n].text.value), Fold(lines[..n])).st, e.cfg, lines[..n + 1], f)
  {
    hide StandsFor, FieldOk, ParseLine, Body, Fold, Readable, TidyLine, Wanted, LineOf;
    var st, l := Fold(lines[..n]), lines[n];
    LineOfTable(lines, e, n);
    assert lines[..n + 1] == lines[..n] + [l];
    if l.tag == DevId {
      FoldDevFrame(l, st, e.cfg, lines[..n], f);
    } else {
      FoldOption(e.cfg, lines[..n], l, st, f);
    }
  }

  // a device line stores into no field
  lemma FoldDevFrame(l: Line, st: Reader, c: Cfg<real>, pre: seq<Line>, f: Field)
    requires TidyLine(l) && Tagged(l, DevId) && st.Valid() && c.Shaped() && InRange(f)
    requires FieldOk(st, c, pre, f)
    ensures FieldOk(ParseLine(Body(l.text.value), st).st, c, pre + [l], f)
  {
    hide ParseLine, ParseOption, Body, DevIdText, DevOf, Named, Stored, Get, NormalField, DefaultField;
    ParseDevLine(l, st);
    StoreFrame(DevId, DevIdText(DevOf(l).value.0, DevOf(l).value.1), st, f);
    StoredSnoc(pre, l, f);
  }

  lemma FoldNothing(c: Cfg<real>, f: Field)
    requires c.Shaped() && InRange(f)
    ensures FieldOk(Fold([]), c, [], f)
  {
    hide Get, NormalField, DefaultField;
    DefaultGet(f);
  }

  lemma {:induction false} FoldField(lines: seq<Line>, e: Effective, n: nat, f: Field)
    requires StandsFor(lines, e) && Printable(e.cfg) && n <= |lines| && InRange(f)
    ensures FieldOk(Fold(lines[..n]), e.cfg, lines[..n], f)
  {
    hide StandsFor, ParseLine, Body, FieldOk, Printable, InRange;
    PrintableShaped(e.cfg);
    if n == 0 {
      FoldNothing(e.cfg, f);
      assert lines[..0] == [];
    } else {
      FoldField(lines, e, n - 1, f);
      assert lines[..n][..n - 1] == lines[..n - 1];
      assert lines[..n] == lines[..n - 1] + [lines[n - 1]];
      if lines[n - 1].text.Some? {
        FoldLine(lines, e, n - 1, f);
      } else {
        SkipLine(Fold(lines[..n - 1]), e.cfg, lines[..n - 1], lines[n - 1], f);
      }
    }
  }

  lemma SkipLine(st: Reader, c: Cfg<real>, pre: seq<Line>, l: Line, f: Field)
    requires st.Valid() && c.Shaped() && InRange(f) && l.text.None? && FieldOk(st, c, pre, f)
    ensures FieldOk(st, c, pre + [l], f)
  {
    hide Get, NormalField, DefaultField, Stored;
    StoredSnoc(pre, l, f);
  }

  lemma {:induction false} FoldDevs(lines: seq<Line>, e: Effective, n: nat)
    requires StandsFor(lines, e) && Printable(e.cfg) && n <= |lines|
    ensures DevsOk(Fold(lines[..n]), Devs(lines[..n]))
  {
    hide StandsFor, Printable, ParseLine, Body, TidyLine, DevOf, Wanted, LineOf, Word;
    if n > 0 {
      hide DevsOk;
      FoldDevs(lines, e, n - 1);
      assert lines[..n][..n - 1] == lines[..n - 1];
      var l, st := lines[n - 1], Fold(lines[..n - 1]);
      if l.text.Some? {
        LineOfTable(lines, e, n - 1);
        if l.tag == DevId {
          FoldDevLine(l, st, Devs(lines[..n - 1]));
          TidyDev(l);
        } else {
          FoldOtherLine(e.cfg, l, st, Devs(lines[..n - 1]));
        }
      } else {
        NoText(l, "");
      }
    }
  }

  lemma TidyDev(l: Line)
    requires TidyLine(l) && Tagged(l, DevId)
    ensures DevOf(l).Some?
  {
    hide DevOf, Named;
  }

  lemma FoldOtherLine(c: Cfg<real>, l: Line, st: Reader, ds: seq<(nat, nat)>)
    requires Printable(c) && st.Valid() && l.text.Some? && Single(l.tag) && Wanted(c, l.tag).Some?
    requires l.text.value == LineOf(l.tag, Wanted(c, l.tag).value) && DevsOk(st, ds)
    ensures DevOf(l) == None && DevsOk(ParseLine(Body(l.text.value), st).st, ds)
  {
    hide Wanted, ParseLine, ParseOption, Word, LineOf;
    ParseSavedLine(c, l.tag, st);
    StoreDevs(l.tag, Word(Wanted(c, l.tag).value), st);
  }

  // an option that is nowhere wanted is at its default
  ghost predicate NowhereWanted(c: Cfg<real>, f: Field)
    requires c.Shaped()
  {
    forall k :: Single(k) && Affects(k, f) ==> Wanted(c, k) == None
  }

  lemma NotWantedFactor(c: Cfg<real>, f: Field)
    requires c.Shaped() && InRange(f) && NowhereWanted(c, f)
    requires f.FSens? || f.FTrans? || f.FRot?
    ensures NormalField(c, f) == DefaultField(f)
  {
    hide Float3, Dec, Flags, BnactName, Uniform, Thousandths;
    match f
    case FSens => assert Wanted(c, Sens) == None; GridOne();
    case FTrans(i) => assert Wanted(c, SensTrans) == None && Wanted(c, SensT(i)) == None; GridOne();
    case FRot(i) => assert Wanted(c, SensRot) == None && Wanted(c, SensR(i)) == None; GridOne();
  }

  lemma NotWantedDead(c: Cfg<real>, i: nat)
    requires c.Shaped() && !AllTwo(c.dead) && i < MAX_AXES && NowhereWanted(c, FDead(i))
    ensures c.dead[i] == DefaultDeadAt(i)
  {
    hide Float3, Dec, Flags, BnactName, All3, Uniform;
    assert Wanted(c, DeadZone) == None && Wanted(c, DeadZoneN(i)) == None;
  }

  lemma NotWantedMap(c: Cfg<real>, f: Field)
    requires c.Shaped() && InRange(f) && NowhereWanted(c, f)
    requires f.FAxis? || f.FBn? || f.FHold? || f.FAct? || f.FKb?
    ensures NormalField(c, f) == DefaultField(f)
  {
    hide Float3, Dec, Flags, BnactName, All3, Uniform, Thousandths;
    match f
    case FAxis(i) => assert Wanted(c, AxisMap(i)) == None;
    case FBn(i) => assert Wanted(c, BnMap(i)) == None;
    case FHold(i) => assert Wanted(c, BnHold(i)) == None;
    case FAct(i) => assert Wanted(c, BnAct(i)) == None;
    case FKb(i) => assert Wanted(c, KbMap(i)) == None; WordOfNothing();
  }

  lemma NotWantedFlag(c: Cfg<real>, f: Field)
    requires c.Shaped() && InRange(f) && NowhereWanted(c, f)
    requires f.FInv? || f.FSwap? || f.FLed? || f.FGrab? || f.FSerial? || f.FRepeat? || f.FTimeout? || f.FSock?
    ensures NormalField(c, f) == DefaultField(f)
  {
    hide Float3, Dec, Flags, BnactName, All3, Uniform, Thousandths, Strtok;
    match f
    case FInv(i) => assert Wanted(c, if i < 3 then InvTrans else InvRot) == None;
    case FSwap => assert Wanted(c, SwapYZ) == None;
    case FLed => assert Wanted(c, Led) == None;
    case FGrab => assert Wanted(c, Grab) == None;
    case FSerial => assert Wanted(c, Serial) == None; WordOfNothing();
    case FRepeat => assert Wanted(c, Repeat) == None;
    case FTimeout => assert Wanted(c, Hold) == None;
    case FSock => assert Wanted(c, SockPath) == None; WordOfNothing();
  }

  lemma NotWanted(c: Cfg<real>, f: Field)
    requires c.Shaped() && InRange(f) && (f.FDead? ==> !AllTwo(c.dead)) && NowhereWanted(c, f)
    ensures NormalField(c, f) == DefaultField(f)
  {
    hide NowhereWanted, AllTwo, Grid, Word;
    if f.FSens? || f.FTrans? || f.FRot? {
      NotWantedFactor(c, f);
    } else if f.FDead? {
      NotWantedDead(c, f.i);
    } else if f.FAxis? || f.FBn? || f.FHold? || f.FAct? || f.FKb? {
      NotWantedMap(c, f);
    } else if !f.FX11? {
      NotWantedFlag(c, f);
    }
  }

  lemma GridOne()
    ensures Grid(1.0) == 1.0
  {
    assert Thousandths(1.0) == 1000;
  }

  lemma WordOfNothing()
    ensures Word("") == ""
  {
  }

  lemma HolderStores(lines: seq<Line>, k: Key, f: Field)
    requires Lookup(lines, k).Some? && Affects(k, f)
    ensures Stored(lines, f)
  {
    hide Lookup, Affects;
    var i := LookupHolder(lines, k);
    assert Affects(lines[i].tag, f);
  }

  lemma StoredOrDefault(lines: seq<Line>, e: Effective, f: Field)
    requires StandsFor(lines, e) && InRange(f) && !Stored(lines, f)
    ensures NormalField(e.cfg, f) == DefaultField(f)
  {
    hide Wanted, LineOf, Clip, Lookup, Affects, TidyLine, AllTwo, NormalField, DefaultField, Stored;
    forall k | Single(k) && Affects(k, f) ensures Wanted(e.cfg, k) == None {
      if Wanted(e.cfg, k).Some? { HolderStores(lines, k, f); }
    }
    NotWanted(e.cfg, f);
  }

  /** What read_cfg makes of the file written for what the table stands for. */
  function Reloaded(e: Effective): Cfg<real>
    requires e.cfg.Shaped()
  {
    Normal(e.cfg).(devid := PadDevs(e.devs))
  }

  // reading the text of a table is folding its lines
  lemma ReadIsFold(lines: seq<Line>)
    requires AllReadable(lines)
    ensures ReadFrom(Text(lines), Start()) == Fold(lines)
  {
    hide Fold, ReadFrom, AllReadable;
    ReadText(lines, "");
    assert Text(lines) + "" == Text(lines);
    ReadEmpty(Fold(lines));
  }

  lemma ReadEmpty(st: Reader)
    requires st.Valid()
    ensures ReadFrom("", st) == st
  {
  }

  /** Reading counts every device id of the table, and gives what the table stands for if the list holds them. */
  lemma ReadTable(lines: seq<Line>, e: Effective)
    requires StandsFor(lines, e) && Printable(e.cfg)
    ensures ReadFrom(Text(lines), Start()).numDev == |e.devs|
    ensures |e.devs| <= MAX_CUSTOM ==> Read(Text(lines)) == Reloaded(e)
  {
    var st := Fold(lines);
    var c := st.cfg;
    assert lines[..|lines|] == lines;
    assert ReadFrom(Text(lines), Start()) == st by {
      hide Fold, Text, Readable, StandsFor, Printable, Wanted, LineOf, TidyLine;
      assert AllReadable(lines) by {
        forall i | 0 <= i < |lines| && lines[i].text.Some?
          ensures Readable(lines[i].text.value)
        {
          LineOfTable(lines, e, i);
        }
      }
      ReadIsFold(lines);
    }
    assert c.devid == Reloaded(e).devid && st.numDev == |e.devs| by {
      hide Fold, Devs, Printable, Tidy, Lookup, WantedText, Normal, AllTwo;
      FoldDevs(lines, e, |lines|);
    }
    hide Fold, StandsFor, Printable, ReadFrom, Text, Stored, NormalField, DefaultField;
    forall f | InRange(f) ensures Get(c, f) == Get(Reloaded(e), f) {
      FoldField(lines, e, |lines|, f);
      if !Stored(lines, f) { StoredOrDefault(lines, e, f); }
      NormalGet(e.cfg, f);
      SameButDevs(Normal(e.cfg), PadDevs(e.devs), f);
    }
    AllFields(c, Reloaded(e));
  }

  lemma SameButDevs(c: Cfg<real>, ds: seq<(int, int)>, f: Field)
    requires c.Shaped() && |ds| == MAX_CUSTOM && InRange(f)
    ensures Get(c.(devid := ds), f) == Get(c, f)
  {
  }
}
