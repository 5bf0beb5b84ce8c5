/**
 Values an option does not accept. The source reports them; whether it also skips
 them depends on the option, because the `continue` of its EXPECT macro only leaves
 the macro's own do-while loop.
 */
module CfgInvalid {
  import opened Basics
  import opened CText
  import opened Config
  import opened CfgKeys
  import opened CfgTable
  import opened CfgRead
  import opened CfgReload

  // ---- what an option accepts -------------------------------------------------------

  datatype Kind = Number | Integer | Truth | Auto | Action | Ids | Anything

  function KindOf(k: Key): Kind {
    match k
    case Sens => Number
    case SensTrans => Number
    case SensT(_) => Number
    case SensRot => Number
    case SensR(_) => Number
    case InvRot => Anything
    case InvTrans => Anything
    case SwapYZ => Truth
    case Grab => Truth
    case UseX11 => Truth
    case Led => Auto
    case BnAct(_) => Action
    case KbMap(_) => Anything
    case Serial => Anything
    case SockPath => Anything
    case DevId => Ids
    case _ => Integer
  }

  /** The value is of the kind the option is documented to take. */
  predicate RightKind(k: Key, w: string) {
    match KindOf(k)
    case Number => ScanReal(w).Some?
    case Integer => IsIntVal(w)
    case Truth => IsIntVal(w) || IsBoolVal(w)
    case Auto => IsIntVal(w) || IsBoolVal(w) || w == "auto"
    case Action => ParseBnact(w).Some?
    case Ids => ScanDevId(w).Some?
    case Anything => true
  }

  /** The index of the option and the value are inside their ranges. */
  predicate InBounds(k: Key, w: string) {
    match k
    case DeadZoneN(i) => 0 <= i < MAX_AXES
    case AxisMap(i) => 0 <= i < MAX_AXES && 0 <= IntVal(w) < 6
    case BnMap(i) => ButtonIdx(i) && ButtonIdx(IntVal(w))
    case BnHold(i) => ButtonIdx(i) && ButtonIdx(IntVal(w))
    case BnAct(i) => ButtonIdx(i)
    case KbMap(i) => ButtonIdx(i)
    case Hold => IntVal(w) >= 0
    case _ => true
  }

  predicate ValidValue(k: Key, w: string) { RightKind(k, w) && InBounds(k, w) }

  /** An invalid value is skipped by the options that test the kind themselves, and by every range check. */
  predicate Skips(k: Key, w: string) {
    k.SwapYZ? || k.Led? || k.Grab? || k.UseX11? || k.DevId? || !InBounds(k, w)
  }

  /** What the other options store for a value of the wrong kind. */
  function Fallback(k: Key, w: string): Val {
    match KindOf(k)
    case Number => R(RealVal(w))
    case Action => I(BNACT_NONE)
    case _ => I(IntVal(w))
  }

  // Affects, and the options a save does not print
  predicate Sets(k: Key, f: Field) {
    Affects(k, f) || (k.DeadAxis? && f == FDead(k.a)) || (k.UseX11? && f.FX11?)
  }

  ghost predicate Holds(c: Cfg<real>, k: Key, v: Val)
    requires c.Shaped()
  {
    forall f :: InRange(f) && Sets(k, f) ==> Get(c, f) == v
  }

  predicate Parsable(k: Key) { (k.SensT? || k.SensR? ==> 0 <= k.a < 3) && (k.DeadAxis? ==> 0 <= k.a < 6) }

  // ---- one family at a time -------------------------------------------------------------

  lemma SkippedKept(k: Key, w: string, st: Reader)
    requires st.Valid() && Parsable(k) && !ValidValue(k, w) && Skips(k, w)
    ensures ParseOption(k, w, st).st == st
  {
    hide ScanInt, ScanReal, BoolWord, ScanDevId, ParseBnact;
  }

  lemma NumberStored(k: Key, w: string, st: Reader)
    requires st.Valid() && Parsable(k) && KindOf(k).Number?
    ensures Holds(ParseOption(k, w, st).st.cfg, k, Fallback(k, w))
  {
    hide ScanReal, RealVal, StoreDead, StoreMap, StoreInvert, StoreFlag;
  }

  lemma NumberKept(k: Key, w: string, st: Reader)
    requires st.Valid() && Parsable(k) && KindOf(k).Number? && Holds(st.cfg, k, Fallback(k, w))
    ensures ParseOption(k, w, st).st == st
  {
    hide ScanReal, RealVal, StoreDead, StoreMap, StoreInvert, StoreFlag, Holds;
    var c, x := st.cfg, RealVal(w);
    match k
    case Sens => HeldAt(c, k, w, FSens);
    case SensTrans => HeldFactors(c, k, w);
    case SensT(a) => HeldAt(c, k, w, FTrans(a));
    case SensRot => HeldFactors(c, k, w);
    case SensR(a) => HeldAt(c, k, w, FRot(a));
  }

  lemma HeldAt(c: Cfg<real>, k: Key, w: string, f: Field)
    requires c.Shaped() && InRange(f) && Sets(k, f) && Holds(c, k, Fallback(k, w))
    ensures Get(c, f) == Fallback(k, w)
  {
    hide Get, Fallback, Sets;
  }

  lemma HeldFactors(c: Cfg<real>, k: Key, w: string)
    requires c.Shaped() && (k.SensTrans? || k.SensRot?) && Holds(c, k, Fallback(k, w))
    ensures [RealVal(w), RealVal(w), RealVal(w)] == if k.SensTrans? then c.sensTrans else c.sensRot
  {
    hide RealVal, Holds;
    var v := if k.SensTrans? then c.sensTrans else c.sensRot;
    forall i | 0 <= i < 3 ensures v[i] == RealVal(w) {
      HeldAt(c, k, w, if k.SensTrans? then FTrans(i) else FRot(i));
    }
  }

  lemma DeadStored(k: Key, w: string, st: Reader)
    requires st.Valid() && Parsable(k) && (k.DeadZone? || k.DeadZoneN? || k.DeadAxis?) && InBounds(k, w)
    ensures Holds(ParseOption(k, w, st).st.cfg, k, Fallback(k, w))
  {
    hide IntVal, StoreFloat, StoreMap, StoreInvert, StoreFlag;
  }

  lemma DeadKept(k: Key, w: string, st: Reader)
    requires st.Valid() && Parsable(k) && (k.DeadZone? || k.DeadZoneN? || k.DeadAxis?) && InBounds(k, w)
    requires Holds(st.cfg, k, Fallback(k, w))
    ensures ParseOption(k, w, st).st == st
  {
    hide IntVal, StoreFloat, StoreMap, StoreInvert, StoreFlag, Holds;
    var c, v := st.cfg, IntVal(w);
    match k
    case DeadZone =>
      forall i | 0 <= i < MAX_AXES ensures c.dead[i] == v { HeldAt(c, k, w, FDead(i)); }
      assert c.dead == Fill(MAX_AXES, v);
    case DeadZoneN(i) => HeldAt(c, k, w, FDead(i));
    case DeadAxis(a) => HeldAt(c, k, w, FDead(a));
  }

  lemma MapStored(k: Key, w: string, st: Reader)
    requires st.Valid() && (k.AxisMap? || k.BnMap?) && InBounds(k, w)
    ensures Holds(ParseOption(k, w, st).st.cfg, k, Fallback(k, w))
  {
    hide IntVal, ParseBnact, StoreFloat, StoreDead, StoreInvert, StoreFlag;
  }

  lemma BnHoldStored(k: Key, w: string, st: Reader)
    requires st.Valid() && k.BnHold? && InBounds(k, w)
    ensures Holds(ParseOption(k, w, st).st.cfg, k, Fallback(k, w))
  {
    hide IntVal, ParseBnact, StoreFloat, StoreDead, StoreInvert, StoreFlag;
  }

  lemma BnActStored(k: Key, w: string, st: Reader)
    requires st.Valid() && k.BnAct? && InBounds(k, w) && ParseBnact(w).None?
    ensures Holds(ParseOption(k, w, st).st.cfg, k, Fallback(k, w))
  {
    hide IntVal, ParseBnact, StoreFloat, StoreDead, StoreInvert, StoreFlag;
  }

  lemma AxisMapKept(k: Key, w: string, st: Reader)
    requires st.Valid() && k.AxisMap? && InBounds(k, w) && Holds(st.cfg, k, Fallback(k, w))
    ensures ParseOption(k, w, st).st == st
  {
    hide IntVal, ParseBnact, StoreFloat, StoreDead, StoreInvert, StoreFlag, Holds;
    HeldAt(st.cfg, k, w, FAxis(k.i));
  }

  lemma BnMapKept(k: Key, w: string, st: Reader)
    requires st.Valid() && k.BnMap? && InBounds(k, w) && Holds(st.cfg, k, Fallback(k, w))
    ensures ParseOption(k, w, st).st == st
  {
    hide IntVal, ParseBnact, StoreFloat, StoreDead, StoreInvert, StoreFlag, Holds;
    HeldAt(st.cfg, k, w, FBn(k.i));
  }

  lemma BnHoldKept(k: Key, w: string, st: Reader)
    requires st.Valid() && k.BnHold? && InBounds(k, w) && Holds(st.cfg, k, Fallback(k, w))
    ensures ParseOption(k, w, st).st == st
  {
    hide IntVal, ParseBnact, StoreFloat, StoreDead, StoreInvert, StoreFlag, Holds;
    HeldAt(st.cfg, k, w, FHold(k.i));
  }

  lemma BnActKept(k: Key, w: string, st: Reader)
    requires st.Valid() && k.BnAct? && InBounds(k, w)
    requires ParseBnact(w).None? && Holds(st.cfg, k, Fallback(k, w))
    ensures ParseOption(k, w, st).st == st
  {
    hide IntVal, ParseBnact, StoreFloat, StoreDead, StoreInvert, StoreFlag, Holds;
    HeldAt(st.cfg, k, w, FAct(k.i));
  }

  lemma TimeStored(k: Key, w: string, st: Reader)
    requires st.Valid() && (k.Repeat? || k.Hold?) && InBounds(k, w)
    ensures Holds(ParseOption(k, w, st).st.cfg, k, Fallback(k, w))
  {
    hide IntVal, IsIntVal, IsBoolVal, StoreFloat, StoreDead, StoreInvert, StoreMap;
  }

  lemma TimeKept(k: Key, w: string, st: Reader)
    requires st.Valid() && (k.Repeat? || k.Hold?) && InBounds(k, w) && Holds(st.cfg, k, Fallback(k, w))
    ensures ParseOption(k, w, st).st == st
  {
    hide IntVal, IsIntVal, IsBoolVal, StoreFloat, StoreDead, StoreInvert, StoreMap, Holds;
    HeldAt(st.cfg, k, w, if k.Repeat? then FRepeat else FTimeout);
  }

  // ---- every option ------------------------------------------------------------------------

  /** A value of the wrong kind that is not skipped is stored: as a number, an integer or truth value, or no action. */
  lemma InvalidStored(k: Key, w: string, st: Reader)
    requires st.Valid() && Parsable(k) && !ValidValue(k, w) && !Skips(k, w)
    ensures Holds(ParseOption(k, w, st).st.cfg, k, Fallback(k, w))
    ensures Holds(st.cfg, k, Fallback(k, w)) ==> ParseOption(k, w, st).st == st
  {
    hide ScanInt, ScanReal, BoolWord, ScanDevId, ParseBnact, IntVal, RealVal, ParseOption, Holds, Fallback;
    var kept := Holds(st.cfg, k, Fallback(k, w));
    if KindOf(k).Number? {
      NumberStored(k, w, st);
      if kept { NumberKept(k, w, st); }
    } else if k.DeadZone? || k.DeadZoneN? || k.DeadAxis? {
      DeadStored(k, w, st);
      if kept { DeadKept(k, w, st); }
    } else if k.Repeat? || k.Hold? {
      TimeStored(k, w, st);
      if kept { TimeKept(k, w, st); }
    } else if k.BnHold? {
      BnHoldStored(k, w, st);
      if kept { BnHoldKept(k, w, st); }
    } else if k.BnAct? {
      BnActStored(k, w, st);
      if kept { BnActKept(k, w, st); }
    } else {
      MapStored(k, w, st);
      if kept && k.AxisMap? { AxisMapKept(k, w, st); }
      if kept && k.BnMap? { BnMapKept(k, w, st); }
    }
  }

  /**
   For every option, value and reader: an invalid value leaves the reader as it was if and
   only if the option skips it, or its fields already hold what is stored instead.
   */
  lemma InvalidKeptIff(k: Key, w: string, st: Reader)
    requires st.Valid() && Parsable(k) && !ValidValue(k, w)
    ensures ParseOption(k, w, st).st == st <==> Skips(k, w) || Holds(st.cfg, k, Fallback(k, w))
  {
    hide ValidValue, Skips, Fallback, Holds, ParseOption;
    if Skips(k, w) { SkippedKept(k, w, st); } else { InvalidStored(k, w, st); }
  }

  /** The same for a line of a file. */
  lemma InvalidLine(k: Key, w: string, st: Reader)
    requires st.Valid() && Saved(k) && w != "" && SepFree(w) && !ValidValue(k, w)
    ensures ParseLine(LineOf(k, w), st).st == st <==> Skips(k, w) || Holds(st.cfg, k, Fallback(k, w))
  {
    hide ValidValue, Skips, Fallback, Holds, ParseOption, Tokens, ParseKey, Word, KeyText;
    KeyTextIsName(k);
    ParseOfKeyText(k);
    TokensOfLine(KeyText(k), w);
    WordOfWord(w);
    InvalidKeptIff(k, w, st);
  }

  // ---- three files ------------------------------------------------------------------------------

  lemma NoNumber(w: string)
    requires w != "" && 'a' <= w[0] <= 'z'
    ensures ScanInt(w) == None && ScanReal(w) == None
  {
    hide Value;
    assert w[0] != '-' && w[0] != '+' && w[0] != '.' && !IsSpace(w[0]) && !IsDigit(w[0], 10);
  }

  // a file of one option
  lemma OneLineFile(k: Key, w: string)
    requires Saved(k) && w != "" && SepFree(w) && |w| <= 20
    ensures Read(LineOf(k, w) + "\n") == ParseOption(k, w, Start()).st.cfg
  {
    hide ParseOption, Tokens, ParseKey, Word, KeyText, ReadFrom, NoBreak;
    KeyTextIsName(k);
    ParseOfKeyText(k);
    TokensOfLine(KeyText(k), w);
    WordOfWord(w);
    var t := LineOf(k, w);
    assert NoBreak(t) by { NameNoBreak(k, w); }
    ReadLine(t, "", Start());
    assert t + "\n" + "" == t + "\n";
    ReadEmpty(ParseLine(t, Start()).st);
  }

  lemma NameNoBreak(k: Key, w: string)
    requires Saved(k) && SepFree(w)
    ensures NoBreak(LineOf(k, w))
  {
    hide KeyText;
    KeyTextIsName(k);
  }

  lemma InvalidValues(st: Reader)
    requires st.Valid()
    ensures ParseOption(Repeat, "yes", st).st.cfg.repeat == 1
    ensures ParseOption(Sens, "abc", st).st.cfg.sensitivity == 0.0
    ensures ParseOption(Led, "abc", st).st == st
  {
    hide ScanInt, ScanReal;
    NoNumber("yes");
    NoNumber("abc");
  }

  /** An invalid interval is stored as 1, an invalid factor as 0, an invalid LED setting not at all. */
  lemma InvalidFiles()
    ensures Read("repeat-interval = yes\n").repeat == 1
    ensures Read("sensitivity = abc\n").sensitivity == 0.0
    ensures Read("led = abc\n") == DefaultCfg(1.0)
  {
    hide Read, ParseOption, DefaultCfg;
    InvalidValues(Start());
    OneLineFile(Repeat, "yes");
    OneLineFile(Sens, "abc");
    OneLineFile(Led, "abc");
    assert LineOf(Repeat, "yes") + "\n" == "repeat-interval = yes\n";
    assert LineOf(Sens, "abc") + "\n" == "sensitivity = abc\n";
    assert LineOf(Led, "abc") + "\n" == "led = abc\n";
  }
}
