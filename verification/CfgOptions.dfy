/**
 What each option of the user's file means: for every name and every kind of value, the field
 a line of it sets and what it sets it to.
 */
module CfgOptions {
  import opened Basics
  import opened CText
  import opened Config
  import opened CfgKeys
  import opened CfgTable
  import opened CfgWrite
  import opened CfgRead
  import opened CfgReload
  import opened CfgInvalid

  /** The line `name = w` turns the configuration into c and changes nothing else of the reader. */
  ghost predicate Sets(name: string, w: string, st: Reader, c: Cfg<real>)
    requires st.Valid()
  {
    ParseLine(name + " = " + w, st).st == st.(cfg := c)
  }

  lemma LineIs(name: string, k: Key, w: string, st: Reader)
    requires Name(name) && ParseKey(name) == Some(k) && Parsable(k)
    requires st.Valid() && w != "" && SepFree(w)
    ensures ParseLine(name + " = " + w, st) == ParseOption(k, w, st)
  {
    hide Tokens, ParseKey, ParseOption, Word, Name;
    TokensOfLine(name, w);
    WordOfWord(w);
  }

  lemma SavedLine(k: Key, w: string, st: Reader)
    requires Saved(k) && st.Valid() && w != "" && SepFree(w)
    ensures ParseLine(KeyText(k) + " = " + w, st) == ParseOption(k, w, st)
  {
    hide ParseKey, ParseOption, KeyText, Name;
    KeyTextIsName(k);
    ParseOfKeyText(k);
    LineIs(KeyText(k), k, w, st);
  }

  // ---- truth values ----------------------------------------------------------------------------

  // false and true in turn
  const TRUTH := ["false", "true", "no", "yes", "off", "on"]

  lemma TruthWord(i: nat)
    requires i < 6
    ensures TRUTH[i] != "" && SepFree(TRUTH[i]) && |TRUTH[i]| <= 5
    ensures ScanInt(TRUTH[i]) == None && IsBoolVal(TRUTH[i]) && IntVal(TRUTH[i]) == i % 2
  {
    hide ScanInt, ScanReal;
    NoNumber(TRUTH[i]);
  }

  lemma X11Name()
    ensures Name("kbmap_use_x11") && ParseKey("kbmap_use_x11") == Some(UseX11)
  {
    hide ScanIndex;
    var s := "kbmap_use_x11";
    NoIndex(s, "dead-zone");
    NoIndex(s, "axismap");
    NoIndex(s, "bnmap");
    NoIndex(s, "bnact");
    assert ScanIndex(s, "kbmap") == None by { X11NoIndex(); }
  }

  lemma X11NoIndex()
    ensures ScanIndex("kbmap_use_x11", "kbmap") == None
  {
    hide ScanInt;
    var s := "kbmap_use_x11";
    assert s[|"kbmap"|..] == "_use_x11";
    NoSign("_use_x11");
  }

  lemma NoSign(s: string)
    requires s != "" && s[0] == '_'
    ensures ScanInt(s) == None
  {
    hide Value;
    assert !IsDigit(s[0], 10) && !IsSpace(s[0]);
  }

  /** Of the six truth words every second one, from true on, switches an option on, the others off. */
  lemma TruthLines(i: nat, st: Reader)
    requires i < 6 && st.Valid()
    ensures Sets("swap-yz", TRUTH[i], st, st.cfg.(swapyz := i % 2))
    ensures Sets("led", TRUTH[i], st, st.cfg.(led := i % 2))
    ensures Sets("grab", TRUTH[i], st, st.cfg.(grab := i % 2))
    ensures Sets("kbmap_use_x11", TRUTH[i], st, st.cfg.(kbemuX11 := i % 2))
  {
    hide ScanInt, IsBoolVal, IntVal, ParseLine, ParseKey;
    var w := TRUTH[i];
    TruthWord(i);
    X11Name();
    SavedLine(SwapYZ, w, st);
    SavedLine(Led, w, st);
    SavedLine(Grab, w, st);
    LineIs("kbmap_use_x11", UseX11, w, st);
  }

  // a file of one line
  lemma ReadOne(t: string)
    requires NoBreak(t) && |t| <= LINE_MAX
    ensures Read(t + "\n") == ParseLine(t, Start()).st.cfg
  {
    hide ParseLine, ReadFrom, NoBreak;
    ReadLine(t, "", Start());
    assert t + "\n" + "" == t + "\n";
    ReadEmpty(ParseLine(t, Start()).st);
  }

  lemma OneTruth(name: string, i: nat)
    requires Name(name) && i < 6
    ensures Read(name + " = " + TRUTH[i] + "\n") == ParseLine(name + " = " + TRUTH[i], Start()).st.cfg
  {
    hide ParseLine, Read;
    TruthWord(i);
    ReadOne(name + " = " + TRUTH[i]);
  }

  /** So does a file of one such line, over the defaults. */
  lemma TruthFiles(i: nat)
    requires i < 6
    ensures var d := DefaultCfg<real>(1.0);
            && Read("swap-yz = " + TRUTH[i] + "\n") == d.(swapyz := i % 2)
            && Read("led = " + TRUTH[i] + "\n") == d.(led := i % 2)
            && Read("grab = " + TRUTH[i] + "\n") == d.(grab := i % 2)
            && Read("kbmap_use_x11 = " + TRUTH[i] + "\n") == d.(kbemuX11 := i % 2)
  {
    hide ParseLine, Read, DefaultCfg;
    TruthLines(i, Start());
    OneTruth("swap-yz", i);
    OneTruth("led", i);
    OneTruth("grab", i);
    OneTruth("kbmap_use_x11", i);
    assert "swap-yz" + " = " == "swap-yz = " && "led" + " = " == "led = ";
    assert "grab" + " = " == "grab = " && "kbmap_use_x11" + " = " == "kbmap_use_x11 = ";
  }

  // ---- numbers -----------------------------------------------------------------------------------

  /** Decimal notation: a sign, and digits of which each is worth ten times the one after it. */
  lemma DecimalNotation(n: int, d: int)
    requires n >= 0 && 0 <= d < 10
    ensures Dec(d) == ["0123456789"[d]] && (n > 0 ==> Dec(10 * n + d) == Dec(n) + Dec(d) && Dec(-n) == "-" + Dec(n))
  {
    assert (10 * n + d) / 10 == n && (10 * n + d) % 10 == d;
  }

  /** Thousandths: the whole part, a point, and three digits. */
  lemma PointNotation(t: int, a: int, b: int, c: int)
    requires t >= 0 && 0 <= a < 10 && 0 <= b < 10 && 0 <= c < 10
    ensures Fixed3(1000 * t + 100 * a + 10 * b + c) == Dec(t) + "." + Dec(a) + Dec(b) + Dec(c)
    ensures 1000 * t + 100 * a + 10 * b + c > 0 ==>
              Fixed3(-(1000 * t + 100 * a + 10 * b + c)) == "-" + Fixed3(1000 * t + 100 * a + 10 * b + c)
  {
    hide Digits, Milli;
    var r := 100 * a + 10 * b + c;
    assert (1000 * t + r) / 1000 == t && (1000 * t + r) % 1000 == r;
    MilliNotation(a, b, c);
    assert Digits(t, 10) + "." + Milli(r) == Dec(t) + "." + Dec(a) + Dec(b) + Dec(c);
  }

  lemma MilliNotation(a: int, b: int, c: int)
    requires 0 <= a < 10 && 0 <= b < 10 && 0 <= c < 10
    ensures Milli(100 * a + 10 * b + c) == Dec(a) + Dec(b) + Dec(c)
  {
    var r := 100 * a + 10 * b + c;
    assert r / 100 == a && r / 10 % 10 == b && r % 10 == c;
    assert Dec(a) == [DigitChar(a)] && Dec(b) == [DigitChar(b)] && Dec(c) == [DigitChar(c)];
  }

  /** Device ids are in base 16. */
  lemma HexNotation(n: int, d: int)
    requires n >= 0 && 0 <= d < 16
    ensures Digits(d, 16) == ["0123456789abcdef"[d]]
    ensures n > 0 ==> Digits(16 * n + d, 16) == Digits(n, 16) + Digits(d, 16)
  {
    assert (16 * n + d) / 16 == n && (16 * n + d) % 16 == d;
  }

  lemma Number(n: int)
    requires IsInt(n)
    ensures Dec(n) != "" && SepFree(Dec(n)) && IsIntVal(Dec(n)) && IntVal(Dec(n)) == n
  {
    hide ScanInt, Dec;
    ScanOfDec(n);
  }

  /** A number that fits a long but not an int keeps its low 32 bits, as an int. */
  lemma LongNumber(n: int)
    requires -0x8000_0000_0000_0000 <= n < 0x8000_0000_0000_0000
    ensures IsIntVal(Dec(n)) && (IntVal(Dec(n)) - n) % UINT_LIMIT == 0 && IsInt(IntVal(Dec(n)))
  {
    hide ScanInt, Dec, ToInt;
    ScanOfLong(n);
    LowBits(n);
  }

  lemma LowBits(n: int)
    ensures (ToInt(n) - n) % UINT_LIMIT == 0
  {
    var q := (n + 0x8000_0000) / 0x1_0000_0000;
    assert ToInt(n) - n == -q * UINT_LIMIT;
  }

  /** Options of one number; a negative hold timeout is skipped, and led and the switches take any number. */
  lemma NumberLines(n: int, st: Reader)
    requires IsInt(n) && st.Valid()
    ensures Sets("repeat-interval", Dec(n), st, st.cfg.(repeat := n))
    ensures Sets("hold-timeout", Dec(n), st, if n < 0 then st.cfg else st.cfg.(holdTimeout := n))
    ensures Sets("dead-zone", Dec(n), st, st.cfg.(dead := Fill(MAX_AXES, n)))
    ensures Sets("led", Dec(n), st, st.cfg.(led := n))
    ensures Sets("grab", Dec(n), st, st.cfg.(grab := n))
    ensures Sets("swap-yz", Dec(n), st, st.cfg.(swapyz := n))
  {
    hide IsIntVal, IsBoolVal, IntVal, ParseLine, Dec, Fill;
    Number(n);
    SavedLine(Repeat, Dec(n), st);
    SavedLine(Hold, Dec(n), st);
    SavedLine(DeadZone, Dec(n), st);
    SavedLine(Led, Dec(n), st);
    SavedLine(Grab, Dec(n), st);
    SavedLine(SwapYZ, Dec(n), st);
  }

  /** Options of an index and a number: a number out of range is skipped. */
  lemma IndexedLines(i: nat, n: int, st: Reader)
    requires i < 64 && IsInt(n) && st.Valid()
    ensures Sets("dead-zone" + Dec(i), Dec(n), st, st.cfg.(dead := st.cfg.dead[i := n]))
    ensures Sets("axismap" + Dec(i), Dec(n), st,
                 if 0 <= n < 6 then st.cfg.(mapAxis := st.cfg.mapAxis[i := n]) else st.cfg)
    ensures Sets("bnmap" + Dec(i), Dec(n), st,
                 if 0 <= n < 64 then st.cfg.(mapButton := st.cfg.mapButton[i := n]) else st.cfg)
    ensures Sets("bnhold" + Dec(i), Dec(n), st,
                 if 0 <= n < 64 then st.cfg.(mapHold := st.cfg.mapHold[i := n]) else st.cfg)
  {
    hide IsIntVal, IsBoolVal, IntVal, ParseLine, Dec;
    Number(n);
    SavedLine(DeadZoneN(i), Dec(n), st);
    SavedLine(AxisMap(i), Dec(n), st);
    SavedLine(BnMap(i), Dec(n), st);
    SavedLine(BnHold(i), Dec(n), st);
  }

  /** Factors, given with three decimals: for all motion, for three axes, or for one. */
  lemma FactorLines(t: int, st: Reader)
    requires st.Valid()
    ensures var x := t as real / 1000.0;
            var w, c := Fixed3(t), st.cfg;
            && Sets("sensitivity", w, st, c.(sensitivity := x))
            && Sets("sensitivity-translation", w, st, c.(sensTrans := [x, x, x]))
            && Sets("sensitivity-translation-x", w, st, c.(sensTrans := c.sensTrans[0 := x]))
            && Sets("sensitivity-translation-y", w, st, c.(sensTrans := c.sensTrans[1 := x]))
            && Sets("sensitivity-translation-z", w, st, c.(sensTrans := c.sensTrans[2 := x]))
            && Sets("sensitivity-rotation", w, st, c.(sensRot := [x, x, x]))
            && Sets("sensitivity-rotation-x", w, st, c.(sensRot := c.sensRot[0 := x]))
            && Sets("sensitivity-rotation-y", w, st, c.(sensRot := c.sensRot[1 := x]))
            && Sets("sensitivity-rotation-z", w, st, c.(sensRot := c.sensRot[2 := x]))
  {
    hide ScanReal, ParseLine, Fixed3;
    var w := Fixed3(t);
    ScanOfFixed3(t);
    assert RealVal(w) == t as real / 1000.0;
    hide RealVal;
    SavedLine(Sens, w, st);
    SavedLine(SensTrans, w, st);
    SavedLine(SensT(0), w, st);
    SavedLine(SensT(1), w, st);
    SavedLine(SensT(2), w, st);
    SavedLine(SensRot, w, st);
    SavedLine(SensR(0), w, st);
    SavedLine(SensR(1), w, st);
    SavedLine(SensR(2), w, st);
  }

  // ---- words -----------------------------------------------------------------------------------------

  // the actions by their numbers
  const ACTIONS := ["none", "sensitivity-reset", "sensitivity-up", "sensitivity-down", "disable-rotation",
                    "disable-translation", "dominant-axis"]

  /** An action by its name. */
  lemma ActionLine(i: nat, a: nat, st: Reader)
    requires i < 64 && a < 7 && st.Valid()
    ensures Sets("bnact" + Dec(i), ACTIONS[a], st, st.cfg.(bnact := st.cfg.bnact[i := a]))
  {
    hide ParseLine, ParseOption, ParseBnact, Dec;
    ActionWord(a);
    ActionName(a);
    SavedLine(BnAct(i), ACTIONS[a], st);
    ActionStored(i, ACTIONS[a], a, st);
  }

  lemma ActionWord(a: nat)
    requires a < 7
    ensures ACTIONS[a] != "" && SepFree(ACTIONS[a])
  {
  }

  lemma ActionName(a: nat)
    requires a < 7
    ensures ParseBnact(ACTIONS[a]) == Some(a)
  {
    assert |ACTIONS[a]| == [4, 17, 14, 16, 16, 19, 13][a];
    assert ACTIONS[3][0] == 's' && ACTIONS[4][0] == 'd';
  }

  lemma ActionStored(i: nat, w: string, a: nat, st: Reader)
    requires i < 64 && st.Valid() && ParseBnact(w) == Some(a)
    ensures ParseOption(BnAct(i), w, st).st == st.(cfg := st.cfg.(bnact := st.cfg.bnact[i := a]))
  {
    hide ParseBnact, IntVal;
  }

  /** The LED setting that follows the clients. */
  lemma AutoLine(st: Reader)
    requires st.Valid()
    ensures Sets("led", "auto", st, st.cfg.(led := 2))
  {
    hide ScanInt, ScanReal, ParseLine;
    NoNumber("auto");
    SavedLine(Led, "auto", st);
  }

  /** Any word: the devices' files, and the keys of a button. */
  lemma TextLines(i: nat, w: string, st: Reader)
    requires i < 64 && w != "" && SepFree(w) && st.Valid()
    ensures Sets("kbmap" + Dec(i), w, st, st.cfg.(kbmapStr := st.cfg.kbmapStr[i := w]))
    ensures Sets("serial", w, st, st.cfg.(serial := w))
    ensures Sets("socket", w, st, st.cfg.(sockpath := w))
  {
    hide ParseLine, ParseOption, Dec, SepFree;
    SavedLine(KbMap(i), w, st);
    SavedLine(Serial, w, st);
    SavedLine(SockPath, w, st);
    TextStored(i, w, st);
  }

  lemma TextStored(i: nat, w: string, st: Reader)
    requires i < 64 && st.Valid()
    ensures ParseOption(KbMap(i), w, st).st == st.(cfg := st.cfg.(kbmapStr := st.cfg.kbmapStr[i := w]))
    ensures ParseOption(Serial, w, st).st == st.(cfg := st.cfg.(serial := w))
    ensures ParseOption(SockPath, w, st).st == st.(cfg := st.cfg.(sockpath := w))
  {
    hide IntVal, IsIntVal, IsBoolVal;
  }

  /** Inverted axes by their letters: translation has the first three places. */
  lemma InvertTransLine(w: string, st: Reader)
    requires w != "" && SepFree(w) && st.Valid()
    ensures var v := st.cfg.invert;
            var x, y, z := v[0] || 'x' in w, v[1] || 'y' in w, v[2] || 'z' in w;
            Sets("invert-trans", w, st, st.cfg.(invert := [x, y, z, v[3], v[4], v[5]]))
  {
    hide ParseLine, SepFree;
    var v := st.cfg.invert;
    SavedLine(InvTrans, w, st);
    SetThree(v, 0, 'x' in w, 'y' in w, 'z' in w);
  }

  /** Rotation has the others. */
  lemma InvertRotLine(w: string, st: Reader)
    requires w != "" && SepFree(w) && st.Valid()
    ensures var v := st.cfg.invert;
            var x, y, z := v[3] || 'x' in w, v[4] || 'y' in w, v[5] || 'z' in w;
            Sets("invert-rot", w, st, st.cfg.(invert := [v[0], v[1], v[2], x, y, z]))
  {
    hide ParseLine, SepFree;
    var v := st.cfg.invert;
    SavedLine(InvRot, w, st);
    SetThree(v, 3, 'x' in w, 'y' in w, 'z' in w);
  }

  lemma SetThree(v: seq<bool>, b: int, x: bool, y: bool, z: bool)
    requires |v| == 6 && (b == 0 || b == 3)
    ensures v[b := v[b] || x][b + 1 := v[b + 1] || y][b + 2 := v[b + 2] || z] ==
            if b == 0 then [v[0] || x, v[1] || y, v[2] || z, v[3], v[4], v[5]]
            else [v[0], v[1], v[2], v[3] || x, v[4] || y, v[5] || z]
  {
  }

  /** A device by its two ids takes the next place of the list. */
  lemma DeviceLine(v: nat, p: nat, st: Reader)
    requires v < INT_LIMIT && p < INT_LIMIT && st.Valid() && st.numDev < MAX_CUSTOM
    ensures ParseLine("device-id" + " = " + DevIdText(v, p), st).st ==
            Reader(st.cfg.(devid := st.cfg.devid[st.numDev := (v, p)]), st.numDev + 1)
  {
    hide ParseLine, ParseOption, DevIdText;
    SavedLine(DevId, DevIdText(v, p), st);
    StoreDevId(v, p, st);
  }

  // ---- the deprecated names ------------------------------------------------------------------------

  const AXIS_NAMES := ["translation-x", "translation-y", "translation-z", "rotation-x", "rotation-y", "rotation-z"]

  lemma AxisName(a: int)
    requires 0 <= a < 6
    ensures Name("dead-zone-" + AXIS_NAMES[a])
  {
    var name := "dead-zone-" + AXIS_NAMES[a];
    assert forall i :: 10 <= i < |name| ==> name[i] == AXIS_NAMES[a][i - 10];
  }

  lemma AxisKey(a: int)
    requires 0 <= a < 6
    ensures ParseKey("dead-zone-" + AXIS_NAMES[a]) == Some(DeadAxis(a))
  {
    hide ParseSens, ParseRot, ParseMaps, ParseRest, ScanIndex;
    var name := "dead-zone-" + AXIS_NAMES[a];
    NotIndexed(a);
    assert name[10] == AXIS_NAMES[a][0] && name[|name| - 1] == AXIS_NAMES[a][|AXIS_NAMES[a]| - 1];
    if a < 3 { TransKey(name, a); } else { RotKey(name, a); }
  }

  lemma NotIndexed(a: int)
    requires 0 <= a < 6
    ensures ScanIndex("dead-zone-" + AXIS_NAMES[a], "dead-zone") == None
  {
    hide ScanInt;
    NoDigits(AXIS_NAMES[a]);
    var name := "dead-zone-" + AXIS_NAMES[a];
    assert name[|"dead-zone"|..] == "-" + AXIS_NAMES[a];
  }

  lemma TransKey(name: string, a: int)
    requires 0 <= a < 3 && name == "dead-zone-" + AXIS_NAMES[a] && ScanIndex(name, "dead-zone") == None
    ensures ParseDead(name) == Some(DeadAxis(a))
  {
    hide ScanIndex;
    assert name[22] == AXIS_NAMES[a][12];
  }

  lemma RotKey(name: string, a: int)
    requires 3 <= a < 6 && name == "dead-zone-" + AXIS_NAMES[a] && ScanIndex(name, "dead-zone") == None
    ensures ParseDead(name) == Some(DeadAxis(a))
  {
    hide ScanIndex;
    assert name[19] == AXIS_NAMES[a][9];
  }

  // a sign without digits is no number
  lemma NoDigits(s: string)
    requires s != "" && 'a' <= s[0] <= 'z'
    ensures ScanInt("-" + s) == None
  {
    hide Value;
    assert ("-" + s)[1..] == s;
  }

  /** The old names set the dead zone of the device axis in that place. */
  lemma DeprecatedLines(a: int, n: int, st: Reader)
    requires 0 <= a < 6 && IsInt(n) && st.Valid()
    ensures Sets("dead-zone-" + AXIS_NAMES[a], Dec(n), st, st.cfg.(dead := st.cfg.dead[a := n]))
  {
    hide IsIntVal, IsBoolVal, IntVal, ParseLine, ParseKey, Dec, Name;
    Number(n);
    AxisName(a);
    AxisKey(a);
    LineIs("dead-zone-" + AXIS_NAMES[a], DeadAxis(a), Dec(n), st);
  }

  // ---- what a save prints ----------------------------------------------------------------------------

  /** A factor is printed as the nearest number of thousandths. */
  lemma NearestPrinted(x: real)
    ensures exists t :: Float3(x) == Fixed3(t) && -0.0005 <= t as real / 1000.0 - x <= 0.0005
  {
    var t := Thousandths(x);
    assert Float3(x) == Fixed3(t);
  }
}
