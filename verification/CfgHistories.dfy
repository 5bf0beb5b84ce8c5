/**
 Saves and reloads in any order: exactly when reading the file gives back the
 configuration that was saved last.
 */
module CfgHistories {
  import opened Basics
  import opened CText
  import opened Config
  import opened CfgKeys
  import opened CfgTable
  import opened CfgWrite
  import opened CfgRead
  import opened CfgSave
  import opened CfgReload
  import opened CfgForeign
  import opened CfgRanges
  import opened CfgTheorems
  import opened CfgShape
  import opened CfgMixed
  import opened CfgReread
  import opened CfgRemember

  // ---- lines that stay ------------------------------------------------------------------------

  /**
   The table has a line of an option that c has at its default, and saving c leaves it:
   the dead zones call for no decision, a refused line of that name is removed in its
   place, or it is not the daemon's own and only those are removed.
   */
  ghost predicate Stays(lines: seq<Line>, c: Cfg<real>, k: Key)
    requires c.Shaped() && Settable(k)
  {
    var slot := Slot(lines, k);
    slot.Some? && Wanted(c, k) == None
    && (!Decided(c, k) || RefusedLeft(lines, c, k) || (OwnOnly(c, k) && !slot.value.own))
  }

  lemma WantedDecided(c: Cfg<real>, k: Key)
    requires c.Shaped() && Single(k) && Wanted(c, k).Some?
    ensures Decided(c, k)
  {
    hide Dec, Float3, BnactName, Flags, DefaultDeadAt;
    DefaultUneven();
  }

  lemma SavedSlot(lines: seq<Line>, c: Cfg<real>, k: Key)
    requires Shape(lines) && Printable(c) && Settable(k)
    ensures var slot := Slot(Save(lines, c), k);
            match Wanted(c, k)
            case Some(v) => slot.Some? && slot.value.text == Some(LineOf(k, v))
            case None => slot == if Stays(lines, c, k) then Slot(lines, k) else None
  {
    hide Shape, Save, Slot, Wanted, Decided, OwnOnly, RefusedLeft, LineOf, Printable;
    PrintableShaped(c);
    SaveSlot(lines, c, k);
    if Wanted(c, k).Some? {
      WantedDecided(c, k);
    } else if Slot(lines, k).Some? && !Decided(c, k) {
      assert Stays(lines, c, k);
    }
  }

  // of two rival options one is not called for, and its line is removed whoever owns it
  lemma RivalGone(c: Cfg<real>, k: Key, j: Key) returns (o: Key)
    requires c.Shaped() && Clash(k, j) && Settable(j) && (k.DeadZone? ==> Decided(c, k) && Decided(c, j))
    ensures (o == k || o == j) && Wanted(c, o) == None && Decided(c, o) && !OwnOnly(c, o) && !Refusable(o)
  {
    hide Dec, Float3, BnactName, Flags, DefaultDeadAt;
    var whole := match k case SensTrans => All3(c.sensTrans) case SensRot => All3(c.sensRot) case _ => Uniform(c.dead);
    o := if whole then j else k;
  }

  lemma NothingRefused(lines: seq<Line>, c: Cfg<real>, k: Key)
    requires Shape(lines) && Settable(k) && !Refusable(k)
    ensures !RefusedLeft(lines, c, k)
  {
    hide Shape, HasRefused, RefusedBut;
    NeverRefused(lines, k);
    RefusedAny(lines, k);
  }

  lemma GoneAfter(lines: seq<Line>, c: Cfg<real>, o: Key)
    requires Shape(lines) && Printable(c) && c.Shaped() && Settable(o)
    requires Wanted(c, o) == None && Decided(c, o) && !OwnOnly(c, o) && !Refusable(o)
    ensures Slot(Save(lines, c), o) == None
  {
    hide Shape, Slot, Save, Wanted, OwnOnly, LineOf, Refusable, Printable, Decided, RefusedLeft, Settable;
    NothingRefused(lines, c, o);
    SavedSlot(lines, c, o);
  }

  // a dead-zone vector that leaves one kind of line undecided wants no line of either kind
  lemma UndecidedDead(c: Cfg<real>, k: Key, j: Key)
    requires c.Shaped() && k.DeadZone? && j.DeadZoneN? && Settable(j) && !(Decided(c, k) && Decided(c, j))
    ensures Wanted(c, k) == None && Wanted(c, j) == None
  {
    hide Dec, Float3, BnactName, Flags;
    DefaultUneven();
  }

  lemma ExclusivePair(lines: seq<Line>, c: Cfg<real>, k: Key, j: Key)
    requires Shape(lines) && Exclusive(lines) && Printable(c) && c.Shaped() && Clash(k, j) && Settable(j)
    ensures Slot(Save(lines, c), k) == None || Slot(Save(lines, c), j) == None
  {
    hide Shape, Slot, Save, Wanted, OwnOnly, LineOf, Refusable, Printable, Decided, Stays, Settable;
    ClashSettable(k, j);
    if k.DeadZone? && !(Decided(c, k) && Decided(c, j)) {
      UndecidedDead(c, k, j);
      SavedSlot(lines, c, k);
      SavedSlot(lines, c, j);
    } else {
      var o := RivalGone(c, k, j);
      GoneAfter(lines, c, o);
    }
  }

  lemma SaveExclusive(lines: seq<Line>, c: Cfg<real>)
    requires Shape(lines) && Exclusive(lines) && Printable(c)
    ensures Exclusive(Save(lines, c))
  {
    hide Shape, Slot, Save, Settable, Printable, Clash;
    PrintableShaped(c);
    forall k, j | Clash(k, j) && Settable(j)
      ensures Slot(Save(lines, c), k) == None || Slot(Save(lines, c), j) == None
    {
      ExclusivePair(lines, c, k, j);
    }
  }

  // ---- repeat-interval -----------------------------------------------------------------------------

  lemma StepRepeats(op: Op, lines: seq<Line>, c: Cfg<real>)
    requires Shape(lines) && Printable(c) && Agrees(op, c) && (op.PutDev? || op.key != Repeat)
    ensures Repeats(Apply(op, lines)) == Repeats(lines)
  {
    hide Title, LineOf, Clip, DevIdText, ToUint, Order, Devs, DevOf, Formed, KeyText, RepeatIn, Named, Repeats,
      Result, WantedText;
    FindIsFirst(op, lines);
    var after := Apply(op, lines);
    match Find(op, lines)
    case Some(j) =>
      var l := Edit(op, lines[j]);
      RepeatsSet(lines, j, l);
      RepeatsOne(lines[j]);
      RepeatsOne(l);
      match op {
        case Put(k, v) => TaggedTitle(lines[j], k); PutTitle(op);
        case Del(k, _) => NamedIs(lines[j], k);
        case PutDev(v, p) => DevTagged(lines[j]); TaggedTitle(lines[j], DevId); DevFormed(v, p, l.own);
      }
    case None =>
      match op {
        case Put(k, v) =>
          PutTitle(op);
          RepeatsConcat(lines, Append(op));
          RepeatsOne(Append(op)[0]);
        case Del(_, _) => assert after == lines;
        case PutDev(v, p) =>
          DevFormed(v, p, false);
          RepeatsConcat(lines, [BLANK] + [Append(op)[1]]);
          RepeatsConcat([BLANK], [Append(op)[1]]);
          RepeatsOne(BLANK);
          RepeatsOne(Append(op)[1]);
          assert after == lines + ([BLANK] + [Append(op)[1]]);
      }
  }

  lemma {:induction false} RunRepeats(lines: seq<Line>, ops: seq<Op>, c: Cfg<real>)
    requires Shape(lines) && Printable(c) && AllAgree(ops, c) && NoRepeat(ops)
    ensures Repeats(Run(lines, ops)) == Repeats(lines)
  {
    hide Shape, Apply, Agrees, Printable, Repeats;
    if ops != [] {
      var pre, op := ops[..|ops| - 1], ops[|ops| - 1];
      RunRepeats(lines, pre, c);
      RunShape(lines, pre, c);
      StepRepeats(op, Run(lines, pre), c);
    }
  }

  predicate FirstIsReal(lines: seq<Line>) {
    match FirstRepeat(lines)
    case None => false
    case Some(j) => j < |lines| && KeyAt(lines[j]) == Some(Repeat)
  }

  /**
   The repeat-interval lines a save of c leaves as they are: one is removed, or rewritten if it is
   the first line tagged 0.
   */
  function Leftover(lines: seq<Line>, c: Cfg<real>): seq<int> {
    var r := Repeats(lines);
    if r != [] && (c.repeat == -1 || FirstIsReal(lines)) then r[1..] else r
  }

  predicate RepeatKept(lines: seq<Line>, c: Cfg<real>) {
    Leftover(lines, c) == [] || Last(Leftover(lines, c)) == c.repeat
  }

  /** What a printed option says, read alone. */
  lemma PrintedSaid(c: Cfg<real>, k: Key, f: Field)
    requires Printable(c) && Single(k) && Wanted(c, k).Some? && InRange(f) && Affects(k, f)
    ensures Said(LineOf(k, Wanted(c, k).value), f) == NormalField(c, f)
  {
    hide Wanted, ParseLine, ParseOption, Word, Get, Affects, NormalField, DefaultField, LineOf, Body;
    ParseSavedLine(c, k, Start());
    DefaultGet(f);
    if Word(Wanted(c, k).value) == "" { EmptyWord(c, k, f); } else { ReadBack(k, c, Start(), f); }
  }

  lemma PrintedRepeat(c: Cfg<real>)
    requires Printable(c) && c.repeat != -1
    ensures RepeatIn(LineOf(Repeat, Dec(c.repeat) + "\n")) == c.repeat
  {
    hide ParseLine, Dec, LineOf, Body;
    PrintedSaid(c, Repeat, FRepeat);
  }

  lemma DelRepeat(lines: seq<Line>)
    requires Shape(lines)
    ensures Repeats(Apply(Del(Repeat, false), lines)) == if Repeats(lines) == [] then [] else Repeats(lines)[1..]
  {
    hide Title, Order, Devs, DevOf, Formed, KeyText, RepeatIn, Named, Repeats;
    var op := Del(Repeat, false);
    FindIsFirst(op, lines);
    forall i | 0 <= i < |lines|
      ensures Hit(op, lines[i]) <==> KeyAt(lines[i]) == Some(Repeat)
    {
      NamedIs(lines[i], Repeat);
    }
    match Find(op, lines)
    case Some(j) =>
      var l := lines[j].(text := None);
      RepeatsSet(lines, j, l);
      NoRepeats(lines[..j]);
      RepeatsOne(lines[j]);
      RepeatsOne(l);
    case None => NoRepeats(lines); assert Apply(op, lines) == lines;
  }

  // no repeat-interval line comes before the first line tagged 0
  lemma FirstRepeats(lines: seq<Line>, j: nat)
    requires Shape(lines) && j < |lines| && forall i :: 0 <= i < j ==> !Tagged(lines[i], Repeat)
    ensures Repeats(lines[..j]) == []
  {
    hide Title, Order, Devs, Formed, Repeats;
    forall i | 0 <= i < j ensures KeyAt(lines[..j][i]) != Some(Repeat) {
      if KeyAt(lines[i]) == Some(Repeat) { FormedTag(lines[i]); }
    }
    NoRepeats(lines[..j]);
  }

  // a repeat-interval line takes the place of a line no other one comes before
  lemma SetFirst(lines: seq<Line>, j: nat, l: Line)
    requires j < |lines| && Repeats(lines[..j]) == [] && KeyAt(l) == Some(Repeat)
    ensures KeyAt(lines[j]) == Some(Repeat) ==> Repeats(lines) != []
    ensures Repeats(lines[j := l]) ==
            [RepeatIn(l.text.value)]
            + if KeyAt(lines[j]) == Some(Repeat) then Repeats(lines)[1..] else Repeats(lines)
  {
    hide KeyAt, RepeatIn, Repeats;
    RepeatsSet(lines, j, l);
    RepeatsOne(lines[j]);
    RepeatsOne(l);
    var rest := Repeats(lines[j + 1..]);
    assert Repeats(lines[j := l]) == Repeats([l]) + rest && Repeats(lines) == Repeats([lines[j]]) + rest;
  }

  lemma PutRepeat(lines: seq<Line>, v: string, j: nat)
    requires Shape(lines) && Find(Put(Repeat, v), lines) == Some(j)
    ensures j < |lines| && (KeyAt(lines[j]) == Some(Repeat) ==> Repeats(lines) != [])
    ensures Repeats(Apply(Put(Repeat, v), lines)) ==
            [RepeatIn(Clip(LineOf(Repeat, v)))]
            + if KeyAt(lines[j]) == Some(Repeat) then Repeats(lines)[1..] else Repeats(lines)
  {
    hide Title, Order, Devs, DevOf, Formed, KeyText, RepeatIn, Repeats, LineOf, Clip;
    var op := Put(Repeat, v);
    FindIsFirst(op, lines);
    PutTitle(op);
    FirstRepeats(lines, j);
    SetFirst(lines, j, Edit(op, lines[j]));
  }

  lemma AddRepeat(lines: seq<Line>, v: string)
    requires Shape(lines) && Find(Put(Repeat, v), lines) == None
    ensures Repeats(lines) == [] && Repeats(Apply(Put(Repeat, v), lines)) == [RepeatIn(Clip(LineOf(Repeat, v)))]
  {
    hide Title, Order, Devs, DevOf, Formed, KeyText, RepeatIn, Repeats, LineOf, Clip;
    var op := Put(Repeat, v);
    FindIsFirst(op, lines);
    PutTitle(op);
    forall i | 0 <= i < |lines| ensures KeyAt(lines[i]) != Some(Repeat) {
      if KeyAt(lines[i]) == Some(Repeat) { FormedTag(lines[i]); }
    }
    NoRepeats(lines);
    RepeatsConcat(lines, Append(op));
    RepeatsOne(Append(op)[0]);
  }

  lemma RepeatWanted(c: Cfg<real>)
    requires c.Shaped() && c.repeat != -1
    ensures Wanted(c, Repeat) == Some(Dec(c.repeat) + "\n")
  {
    hide Dec;
  }

  // the table when the repeat-interval step comes
  lemma BeforeRepeat(lines: seq<Line>, c: Cfg<real>)
    requires Shape(lines) && Printable(c)
    ensures c.Shaped() && Shape(Run(lines, FirstOps(c))) && Repeats(Run(lines, FirstOps(c))) == Repeats(lines)
  {
    hide Shape, Run, FirstOps, Repeats, Printable, Agrees;
    PrintableShaped(c);
    FirstAgree(c);
    FirstNoRepeat(c);
    RunShape(lines, FirstOps(c), c);
    RunRepeats(lines, FirstOps(c), c);
  }

  lemma WriteRepeatSays(lines: seq<Line>, c: Cfg<real>)
    requires Shape(lines) && Printable(c) && c.repeat != -1 && c.Shaped()
    ensures Repeats(Apply(Put(Repeat, Dec(c.repeat) + "\n"), Run(lines, FirstOps(c)))) ==
              [c.repeat] + Leftover(lines, c)
  {
    hide Shape, Run, FirstOps, Apply, Repeats, Dec, LineOf, Clip, KeyAt, RepeatIn, Printable;
    var first, v := Run(lines, FirstOps(c)), Dec(c.repeat) + "\n";
    BeforeRepeat(lines, c);
    PrintedRepeat(c);
    RepeatFits(c);
    FirstZero(lines, c, v);
    FindIsFirst(Put(Repeat, ""), lines);
    match FirstRepeat(lines) {
      case Some(j) =>
        PutRepeat(first, v, j);
        ZeroLines(lines, c, j);
      case None => AddRepeat(first, v);
    }
  }

  lemma RepeatFits(c: Cfg<real>)
    requires Printable(c) && c.Shaped() && c.repeat != -1
    ensures Clip(LineOf(Repeat, Dec(c.repeat) + "\n")) == LineOf(Repeat, Dec(c.repeat) + "\n")
  {
    hide Dec, LineOf, Clip, Printable;
    RepeatWanted(c);
    PrintedSpells(c, Repeat);
  }

  lemma RepeatStepSays(lines: seq<Line>, c: Cfg<real>)
    requires Shape(lines) && Printable(c)
    ensures c.Shaped() && (Last(Repeats(RepeatStep(lines, c))) == c.repeat <==> RepeatKept(lines, c))
  {
    hide Shape, Run, FirstOps, Apply, Set, Repeats, Dec, LineOf, Clip, KeyAt, Printable, Agrees, FirstIsReal;
    BeforeRepeat(lines, c);
    RepeatOp(c);
    if c.repeat == -1 {
      DelRepeat(Run(lines, FirstOps(c)));
    } else {
      WriteRepeatSays(lines, c);
    }
  }

  /** The repeat interval comes back exactly if the last repeat-interval line left over says it. */
  lemma RepeatComesBack(lines: seq<Line>, c: Cfg<real>)
    requires Shape(lines) && Printable(c)
    ensures Fold(Save(lines, c)).cfg.repeat == c.repeat <==> RepeatKept(lines, c)
  {
    hide Shape, Run, FirstOps, LastOps, Apply, Set, Repeats, RepeatKept, Fold, Printable, Save;
    PrintableShaped(c);
    RepeatStepSays(lines, c);
    ScriptSplit(lines, c);
    FirstAgree(c);
    LastNoRepeat(c);
    RepeatRefused(lines, c, Hold);
    RunRepeats(RepeatStep(lines, c), LastOps(c), c);
    SaveShape(lines, c);
    var after := Save(lines, c);
    FoldRepeat(after, |after|);
    assert after[..|after|] == after;
  }
  // ---- one field ----------------------------------------------------------------------------------------

  lemma UnwantedFactor(c: Cfg<real>, f: Field)
    requires c.Shaped() && InRange(f) && NowhereWanted(c, f) && (f.FSens? || f.FTrans? || f.FRot?)
    ensures NormalField(c, f) == Get(c, f)
  {
    hide Float3, Dec, Flags, BnactName, Uniform, Thousandths;
    match f
    case FSens => assert Wanted(c, Sens) == None; GridOne();
    case FTrans(i) => assert Wanted(c, SensTrans) == None && Wanted(c, SensT(i)) == None; GridOne();
    case FRot(i) => assert Wanted(c, SensRot) == None && Wanted(c, SensR(i)) == None; GridOne();
  }

  lemma UnwantedMap(c: Cfg<real>, f: Field)
    requires c.Shaped() && InRange(f) && NowhereWanted(c, f) && (f.FAxis? || f.FBn? || f.FHold?)
    ensures NormalField(c, f) == Get(c, f) || (f.FHold? && c.mapHold[f.i] < -1)
  {
    hide Float3, Dec, Flags, BnactName, All3, Uniform, Thousandths, Word;
    match f
    case FAxis(i) => assert Wanted(c, AxisMap(i)) == None;
    case FBn(i) => assert Wanted(c, BnMap(i)) == None;
    case FHold(i) => assert Wanted(c, BnHold(i)) == None;
  }

  lemma UnwantedKey(c: Cfg<real>, f: Field)
    requires c.Shaped() && InRange(f) && NowhereWanted(c, f) && (f.FAct? || f.FKb?)
    ensures NormalField(c, f) == Get(c, f)
  {
    hide Float3, Dec, Flags, BnactName, All3, Uniform, Thousandths;
    match f
    case FAct(i) => assert Wanted(c, BnAct(i)) == None;
    case FKb(i) => assert Wanted(c, KbMap(i)) == None; WordOfNothing();
  }

  lemma UnwantedFlag(c: Cfg<real>, f: Field)
    requires c.Shaped() && InRange(f) && NowhereWanted(c, f)
    requires f.FSwap? || f.FLed? || f.FGrab? || f.FSerial? || f.FTimeout? || f.FSock?
    ensures NormalField(c, f) == Get(c, f)
  {
    hide Float3, Dec, Flags, BnactName, All3, Uniform, Thousandths, Strtok;
    match f
    case FSwap => assert Wanted(c, SwapYZ) == None;
    case FLed => assert Wanted(c, Led) == None;
    case FGrab => assert Wanted(c, Grab) == None;
    case FSerial => assert Wanted(c, Serial) == None; WordOfNothing();
    case FTimeout => assert Wanted(c, Hold) == None;
    case FSock => assert Wanted(c, SockPath) == None; WordOfNothing();
  }

  /**
   A field no option is wanted for has a value the printer and the parser agree on, but for hold
   mappings below -1.
   */
  lemma UnwantedFaithful(c: Cfg<real>, f: Field)
    requires c.Shaped() && InRange(f) && NowhereWanted(c, f) && !f.FX11?
    ensures NormalField(c, f) == Get(c, f) || (f.FHold? && c.mapHold[f.i] < -1)
  {
    hide NowhereWanted, Grid, Word;
    if f.FSens? || f.FTrans? || f.FRot? {
      UnwantedFactor(c, f);
    } else if f.FAxis? || f.FBn? || f.FHold? {
      UnwantedMap(c, f);
    } else if f.FAct? || f.FKb? {
      UnwantedKey(c, f);
    } else if f.FSwap? || f.FLed? || f.FGrab? || f.FSerial? || f.FTimeout? || f.FSock? {
      UnwantedFlag(c, f);
    }
  }

  lemma SaidHold(t: string, i: nat)
    requires i < MAX_BUTTONS
    ensures Said(t, FHold(i)) == I(ParseLine(Body(t), Start()).st.cfg.mapHold[i])
    ensures ParseLine(Body(t), Start()).st.cfg.mapHold[i] >= -1
  {
    hide ParseLine, Body;
    LineSane(Body(t), Start());
  }

  ghost predicate SaysField(l: Line, c: Cfg<real>, f: Field)
    requires c.Shaped() && InRange(f)
  {
    l.text.Some? && Said(l.text.value, f) == Get(c, f)
  }

  /** When saving c and reading the file gives c's value of the field. */
  ghost predicate FieldKept(lines: seq<Line>, c: Cfg<real>, f: Field)
    requires c.Shaped() && InRange(f)
  {
    && NormalField(c, f) == Get(c, f)
    && (forall k :: Settable(k) && Affects(k, f) && Stays(lines, c, k) ==> SaysField(Slot(lines, k).value, c, f))
    && (f.FDead? && AllTwo(c.dead) && f.i >= 6 ==> exists k :: Settable(k) && Affects(k, f) && Stays(lines, c, k))
  }

  // an option with a value to print decides the field alone
  lemma WantedValue(lines: seq<Line>, c: Cfg<real>, f: Field, k: Key)
    requires Shape(lines) && Exclusive(lines) && Printable(c) && c.Shaped() && InRange(f)
    requires Settable(k) && Affects(k, f) && Wanted(c, k).Some?
    ensures Get(Fold(Save(lines, c)).cfg, f) == NormalField(c, f)
  {
    hide Shape, Exclusive, Slot, Save, Wanted, Stays, Said, Fold, Get, NormalField, LineOf, Printable, Affects,
      Settable;
    SaveShape(lines, c);
    SaveExclusive(lines, c);
    SavedSlot(lines, c, k);
    FieldHeld(Save(lines, c), k, f);
    SettableSingle();
    PrintedSaid(c, k, f);
  }

  lemma SettableSingle()
    ensures forall k :: Settable(k) <==> Single(k) && k != Repeat
  {
  }

  lemma KeptWanted(lines: seq<Line>, c: Cfg<real>, f: Field, k: Key)
    requires Shape(lines) && Exclusive(lines) && Printable(c) && c.Shaped() && InRange(f)
    requires Settable(k) && Affects(k, f) && Wanted(c, k).Some?
    ensures Get(Fold(Save(lines, c)).cfg, f) == Get(c, f) <==> FieldKept(lines, c, f)
  {
    hide Shape, Exclusive, Slot, Save, Wanted, Stays, SaysField, Fold, Get, NormalField, Printable, Affects, Settable,
      AllTwo;
    WantedValue(lines, c, f, k);
    SaveExclusive(lines, c);
    forall j | Settable(j) && Affects(j, f) ensures !Stays(lines, c, j) { NoneBeside(lines, c, f, k, j); }
    SettableSingle();
    if f.FDead? { DeadWanted(c, k, f); }
  }

  lemma DeadWanted(c: Cfg<real>, k: Key, f: Field)
    requires c.Shaped() && f.FDead? && Single(k) && Affects(k, f) && Wanted(c, k).Some?
    ensures !AllTwo(c.dead)
  {
    hide Dec;
  }

  lemma NoneBeside(lines: seq<Line>, c: Cfg<real>, f: Field, k: Key, j: Key)
    requires c.Shaped() && Shape(lines) && Exclusive(Save(lines, c)) && Printable(c)
    requires Settable(k) && Settable(j) && Affects(k, f) && Affects(j, f) && Wanted(c, k).Some?
    ensures !Stays(lines, c, j)
  {
    hide Shape, Slot, Save, Wanted, LineOf, Printable, Affects, Settable, Decided, RefusedLeft, OwnOnly;
    CommonField(k, j, f);
    SavedSlot(lines, c, k);
    SavedSlot(lines, c, j);
  }

  // nothing to print, and a line that stays
  lemma StaleValue(lines: seq<Line>, c: Cfg<real>, f: Field, k: Key)
    requires c.Shaped() && Shape(lines) && Exclusive(lines) && Printable(c) && InRange(f)
    requires Settable(k) && Affects(k, f) && Stays(lines, c, k)
    ensures Slot(lines, k).Some? && Slot(lines, k).value.text.Some?
    ensures Get(Fold(Save(lines, c)).cfg, f) == Said(Slot(lines, k).value.text.value, f)
  {
    hide Shape, Exclusive, Slot, Save, Wanted, Stays, Said, Fold, Get, LineOf, Printable, Affects, Settable;
    SaveShape(lines, c);
    SaveExclusive(lines, c);
    StaysHeld(lines, c, k);
    SavedSlot(lines, c, k);
    FieldHeld(Save(lines, c), k, f);
  }

  lemma KeptStale(lines: seq<Line>, c: Cfg<real>, f: Field, k: Key)
    requires c.Shaped() && Shape(lines) && Exclusive(lines) && Printable(c) && InRange(f) && !f.FX11? && f != FRepeat
    requires Settable(k) && Affects(k, f) && NowhereWanted(c, f) && Stays(lines, c, k)
    ensures Get(Fold(Save(lines, c)).cfg, f) == Get(c, f) <==> FieldKept(lines, c, f)
  {
    hide Shape, Exclusive, Slot, Save, Wanted, Stays, Said, Fold, Get, NormalField, Printable, Affects, Settable,
      AllTwo, NowhereWanted;
    forall j | Settable(j) && Affects(j, f) && Stays(lines, c, j)
      ensures Slot(lines, j).Some?
      ensures SaysField(Slot(lines, j).value, c, f) <==> Get(Fold(Save(lines, c)).cfg, f) == Get(c, f)
    {
      StaleValue(lines, c, f, j);
    }
    StaleValue(lines, c, f, k);
    UnwantedFaithful(c, f);
    if f.FHold? { SaidHold(Slot(lines, k).value.text.value, f.i); HoldGet(c, f.i); }
  }

  lemma HoldGet(c: Cfg<real>, i: nat)
    requires c.Shaped() && i < MAX_BUTTONS
    ensures Get(c, FHold(i)) == I(c.mapHold[i])
  {
  }

  lemma StaysHeld(lines: seq<Line>, c: Cfg<real>, k: Key)
    requires c.Shaped() && Settable(k) && Stays(lines, c, k)
    ensures Slot(lines, k).Some? && Wanted(c, k) == None
  {
    hide Wanted, Slot, Decided, RefusedLeft, OwnOnly;
  }

  // nothing to print and nothing that stays
  lemma KeptDefault(lines: seq<Line>, c: Cfg<real>, f: Field)
    requires Shape(lines) && Exclusive(lines) && Printable(c) && c.Shaped() && InRange(f) && !f.FX11? && f != FRepeat
    requires NowhereWanted(c, f) && forall k :: Settable(k) && Affects(k, f) ==> !Stays(lines, c, k)
    ensures Get(Fold(Save(lines, c)).cfg, f) == Get(c, f) <==> FieldKept(lines, c, f)
  {
    hide Shape, Exclusive, Slot, Save, Wanted, Stays, Said, Fold, Get, NormalField, LineOf, Printable, Affects,
      Settable, AllTwo, DefaultField;
    SaveShape(lines, c);
    assert forall k :: Settable(k) && Affects(k, f) ==> Single(k) by { SettableSingle(); }
    forall k | Settable(k) && Affects(k, f) ensures Slot(Save(lines, c), k) == None { SavedSlot(lines, c, k); }
    FieldUnheld(Save(lines, c), f);
    if f.FDead? && AllTwo(c.dead) {
      TwoEverywhere(c, f);
    } else {
      NotWanted(c, f);
    }
  }

  lemma TwoEverywhere(c: Cfg<real>, f: Field)
    requires c.Shaped() && InRange(f) && f.FDead? && AllTwo(c.dead)
    ensures NormalField(c, f) == Get(c, f) == I(2) && DefaultField(f) == I(if f.i < 6 then 2 else 0)
  {
    UniformAll(c.dead, f.i);
  }

  lemma FieldComesBack(lines: seq<Line>, c: Cfg<real>, f: Field)
    requires Shape(lines) && Exclusive(lines) && Printable(c) && c.Shaped() && InRange(f) && !f.FX11? && f != FRepeat
    ensures Get(Fold(Save(lines, c)).cfg, f) == Get(c, f) <==> FieldKept(lines, c, f)
  {
    hide Shape, Exclusive, Slot, Save, Wanted, Stays, Fold, Get, Printable, Affects, Settable, FieldKept;
    SettableSingle();
    if k :| Settable(k) && Affects(k, f) && Wanted(c, k).Some? {
      KeptWanted(lines, c, f, k);
    } else {
      assert !Affects(Repeat, f) by { OnlyRepeat(f); }
      assert NowhereWanted(c, f);
      if k :| Settable(k) && Affects(k, f) && Stays(lines, c, k) {
        KeptStale(lines, c, f, k);
      } else {
        KeptDefault(lines, c, f);
      }
    }
  }

  lemma OnlyRepeat(f: Field)
    requires f != FRepeat
    ensures !Affects(Repeat, f)
  {
  }

  // ---- the whole configuration ---------------------------------------------------------------------------

  /** The line gives every field of option k the value c has. */
  ghost predicate Says(l: Line, c: Cfg<real>, k: Key)
    requires c.Shaped()
  {
    forall f :: InRange(f) && Affects(k, f) ==> SaysField(l, c, f)
  }

  /**
   When saving c over the table and reading the file gives back c: its values print
   faithfully, the repeat-interval lines left over say it, every line that stays says what
   c says, a dead-zone vector of 64 twos finds a line for each axis whose default is 0, and
   the device list continues the one in the table.
   */
  ghost predicate ComesBack(lines: seq<Line>, c: Cfg<real>)
    requires c.Shaped()
  {
    && Faithful(c)
    && RepeatKept(lines, c)
    && (forall k :: Settable(k) && Stays(lines, c, k) ==> Says(Slot(lines, k).value, c, k))
    && (AllTwo(c.dead) ==> forall i :: 6 <= i < MAX_AXES ==> Stays(lines, c, DeadZone) || Stays(lines, c, DeadZoneN(i)))
    && exists n :: 0 <= n <= MAX_CUSTOM && Compact(c.devid, n) && Devs(lines) <= Pairs(c.devid[..n])
  }

  ghost predicate AllKept(lines: seq<Line>, c: Cfg<real>)
    requires c.Shaped()
  {
    forall f :: InRange(f) && !f.FX11? && f != FRepeat ==> FieldKept(lines, c, f)
  }

  lemma FaithfulFields(c: Cfg<real>)
    requires c.Shaped()
    ensures Faithful(c) <==> forall f :: InRange(f) ==> NormalField(c, f) == Get(c, f)
  {
    hide Faithful, Normal, NormalField, Get;
    NormalIffFaithful(c);
    forall f | InRange(f) ensures Get(Normal(c), f) == NormalField(c, f) { NormalGet(c, f); }
    if forall f :: InRange(f) ==> NormalField(c, f) == Get(c, f) {
      NormalDevs(c);
      AllFields(Normal(c), c);
    }
  }

  lemma NormalDevs(c: Cfg<real>)
    requires c.Shaped()
    ensures Normal(c).devid == c.devid
  {
    hide Grid, Word;
  }

  lemma DeadHolders(i: nat)
    requires i < MAX_AXES
    ensures forall k :: Settable(k) && Affects(k, FDead(i)) <==> k == DeadZone || k == DeadZoneN(i)
  {
  }

  lemma DeadKept(lines: seq<Line>, c: Cfg<real>, f: Field)
    requires c.Shaped() && InRange(f) && f.FDead?
    ensures (exists k :: Settable(k) && Affects(k, f) && Stays(lines, c, k)) <==>
              Stays(lines, c, DeadZone) || Stays(lines, c, DeadZoneN(f.i))
  {
    hide Settable, Affects, Stays;
    DeadHolders(f.i);
    assert Settable(DeadZone) && Settable(DeadZoneN(f.i)) by { DeadSettable(f.i); }
    if Stays(lines, c, DeadZone) { assert Settable(DeadZone) && Affects(DeadZone, f); }
    if Stays(lines, c, DeadZoneN(f.i)) { assert Settable(DeadZoneN(f.i)) && Affects(DeadZoneN(f.i), f); }
  }

  lemma DeadSettable(i: nat)
    requires i < MAX_AXES
    ensures Settable(DeadZone) && Settable(DeadZoneN(i))
  {
  }

  // an option is settable and stores into neither the repeat interval nor kbmap_use_x11
  lemma SettableField(k: Key, f: Field)
    requires Settable(k) && Affects(k, f)
    ensures !f.FX11? && f != FRepeat
  {
  }

  /** All fields come back exactly if the conditions on the whole configuration hold. */
  lemma KeptTogether(lines: seq<Line>, c: Cfg<real>)
    requires c.Shaped()
    ensures (AllKept(lines, c) && RepeatKept(lines, c) && c.kbemuX11 == 0) <==>
              && Faithful(c) && RepeatKept(lines, c)
              && (forall k :: Settable(k) && Stays(lines, c, k) ==> Says(Slot(lines, k).value, c, k))
              && (AllTwo(c.dead) ==> forall i :: 6 <= i < MAX_AXES ==>
                    Stays(lines, c, DeadZone) || Stays(lines, c, DeadZoneN(i)))
  {
    hide Faithful, RepeatKept, Stays, Slot, SaysField, NormalField, Get, Affects, Settable, AllTwo;
    FaithfulFields(c);
    forall i: nat | i < MAX_AXES ensures Settable(DeadZone) && Settable(DeadZoneN(i)) { DeadSettable(i); }
    DeadSettable(0);
    X11AndRepeat(c);
    forall k, f | Settable(k) && Affects(k, f) ensures !f.FX11? && f != FRepeat { SettableField(k, f); }
    forall f | InRange(f) && f.FDead?
      ensures (exists k :: Settable(k) && Affects(k, f) && Stays(lines, c, k)) <==>
                Stays(lines, c, DeadZone) || Stays(lines, c, DeadZoneN(f.i))
    {
      DeadKept(lines, c, f);
    }
    if AllKept(lines, c) && AllTwo(c.dead) {
      forall i | 6 <= i < MAX_AXES ensures Stays(lines, c, DeadZone) || Stays(lines, c, DeadZoneN(i)) {
        assert FieldKept(lines, c, FDead(i));
      }
    }
    if AllKept(lines, c) {
      forall k, f | Settable(k) && Stays(lines, c, k) && InRange(f) && Affects(k, f)
        ensures Slot(lines, k).Some? && SaysField(Slot(lines, k).value, c, f)
      {
        StaysHeld(lines, c, k);
        assert FieldKept(lines, c, f);
      }
    }
  }

  lemma X11AndRepeat(c: Cfg<real>)
    requires c.Shaped()
    ensures NormalField(c, FX11) == Get(c, FX11) <==> c.kbemuX11 == 0
    ensures NormalField(c, FRepeat) == Get(c, FRepeat)
  {
  }
  /** Shaped tables without rival options or end markers among their ids. */
  ghost predicate Fit(lines: seq<Line>) { Shape(lines) && Exclusive(lines) && Ids(Devs(lines)) }

  lemma FieldsTogether(lines: seq<Line>, c: Cfg<real>)
    requires Fit(lines) && Printable(c) && c.Shaped()
    ensures SameFields(Fold(Save(lines, c)).cfg, c) <==> AllKept(lines, c) && RepeatKept(lines, c) && c.kbemuX11 == 0
  {
    hide Shape, Exclusive, Save, Fold, Get, Printable, FieldKept, RepeatKept, Devs;
    var r := Fold(Save(lines, c)).cfg;
    forall f | InRange(f) && !f.FX11? && f != FRepeat
      ensures Get(r, f) == Get(c, f) <==> FieldKept(lines, c, f)
    {
      FieldComesBack(lines, c, f);
    }
    RepeatComesBack(lines, c);
    SaveShape(lines, c);
    FieldUnheld(Save(lines, c), FX11) by { NoX11(); }
    X11AndRepeat(c);
    TwoScalars(r);
    TwoScalars(c);
    assert InRange(FX11) && InRange(FRepeat);
  }

  lemma NoX11()
    ensures forall k :: !Affects(k, FX11)
    ensures DefaultField(FX11) == I(0)
  {
  }

  lemma TwoScalars(c: Cfg<real>)
    requires c.Shaped()
    ensures Get(c, FX11) == I(c.kbemuX11) && Get(c, FRepeat) == I(c.repeat)
  {
  }

  lemma SameConfig(a: Cfg<real>, b: Cfg<real>)
    requires a.Shaped() && b.Shaped()
    ensures a == b <==> SameFields(a, b) && a.devid == b.devid
  {
    hide SameFields;
    if SameFields(a, b) && a.devid == b.devid { AllFields(a, b); }
    if a == b { assert SameFields(a, b) by { SameAsItself(a); } }
  }

  lemma SameAsItself(a: Cfg<real>)
    requires a.Shaped()
    ensures SameFields(a, a)
  {
  }

  /** Over any table that saves and reloads leave, a save is read back exactly if ComesBack says so. */
  lemma SaveComesBack(lines: seq<Line>, c: Cfg<real>)
    requires Fit(lines) && Printable(c) && DevIds(c.devid) && c.Shaped()
    requires !ReadFrom(Text(Save(lines, c)), Start()).Overflowed()
    ensures Read(Text(Save(lines, c))) == c <==> ComesBack(lines, c)
  {
    hide Shape, Exclusive, Save, Fold, Printable, AllKept, RepeatKept, Devs, ReadFrom, Text, SameFields, Faithful,
      Stays, Says, AddAll, PadDevs, Compact, AllTwo;
    SaveShape(lines, c);
    ReadShape(Save(lines, c));
    var r := Fold(Save(lines, c)).cfg;
    SameConfig(r, c);
    FieldsTogether(lines, c);
    KeptTogether(lines, c);
    DistinctDevs(lines);
    DevsSurvive(Devs(lines), c.devid);
  }

  lemma DistinctDevs(lines: seq<Line>)
    requires Shape(lines)
    ensures Distinct(Devs(lines))
  {
  }

  // ---- histories -------------------------------------------------------------------------------------------------

  datatype Turn = Saves(cfg: Cfg<real>) | Rereads

  predicate Turns(h: seq<Turn>) {
    forall t :: t in h && t.Saves? ==> Printable(t.cfg) && DevIds(t.cfg.devid) && t.cfg.Shaped()
  }

  /** The table after saves and reloads of a first one; a reload remembers the lines of the file as it is. */
  function TableAfter(start: seq<Line>, h: seq<Turn>): seq<Line>
    requires Turns(h)
  {
    if h == [] then start
    else
      var before := TableAfter(start, h[..|h| - 1]);
      var t := h[|h| - 1];
      assert t in h;
      match t
      case Saves(c) => Save(before, c)
      case Rereads => RememberFrom(Text(before), Start())
  }

  lemma EmptyFits()
    ensures Fit([])
  {
    forall k, j | Clash(k, j) && Settable(j) ensures Slot([], k) == None { SlotNone([], k); }
  }

  lemma SaveFits(lines: seq<Line>, c: Cfg<real>)
    requires Fit(lines) && Printable(c) && DevIds(c.devid) && c.Shaped()
    ensures Fit(Save(lines, c))
  {
    hide Shape, Exclusive, Save, Printable, Devs, AddAll, Ids;
    SaveShape(lines, c);
    SaveExclusive(lines, c);
    DistinctDevs(lines);
    AddAllKeeps(Devs(lines), c.devid);
  }

  lemma RereadFits(lines: seq<Line>)
    requires Fit(lines)
    ensures Fit(RememberFrom(Text(lines), Start()))
  {
    hide Shape, Exclusive, Devs, Text, RememberFrom, Reread;
    RememberIs(lines);
    RereadShape(lines);
    RereadExclusive(lines);
  }

  lemma {:induction false} TurnsFit(start: seq<Line>, h: seq<Turn>)
    requires Fit(start) && Turns(h)
    ensures Fit(TableAfter(start, h))
  {
    hide Fit, Save, Printable, Text, RememberFrom;
    if h != [] {
      var pre, t := h[..|h| - 1], h[|h| - 1];
      assert t in h;
      TurnsFit(start, pre);
      match t
      case Saves(c) => SaveFits(TableAfter(start, pre), c);
      case Rereads => RereadFits(TableAfter(start, pre));
    }
  }

  /**
   After any history of saves and reloads, and one more save, the file gives back the
   configuration saved last if and only if ComesBack holds of it and of the table before.
   The history starts from an empty table (EmptyFits) or an orderly file (OrderlyFits).
   */
  lemma LastSaveWinsMixed(start: seq<Line>, h: seq<Turn>, c: Cfg<real>)
    requires Fit(start) && Turns(h) && Printable(c) && DevIds(c.devid) && c.Shaped()
    requires !ReadFrom(Text(Save(TableAfter(start, h), c)), Start()).Overflowed()
    ensures Read(Text(Save(TableAfter(start, h), c))) == c <==> ComesBack(TableAfter(start, h), c)
  {
    hide Fit, Save, Printable, Text, ReadFrom, ComesBack, TableAfter;
    TurnsFit(start, h);
    SaveComesBack(TableAfter(start, h), c);
  }

  /** The ids of such a history overflow the list of read_cfg exactly if the table holds more than it has places. */
  lemma MixedOverflowIff(start: seq<Line>, h: seq<Turn>)
    requires Fit(start) && Turns(h)
    ensures ReadFrom(Text(TableAfter(start, h)), Start()).Overflowed() <==> |Devs(TableAfter(start, h))| > MAX_CUSTOM
  {
    hide Shape, Exclusive, Text, ReadFrom, Fold, Devs, PadDevs, TableAfter;
    TurnsFit(start, h);
    ReadShape(TableAfter(start, h));
  }

  // ---- a user's file ---------------------------------------------------------------------------------------------

  // a device id as add_cfgopt_devid prints it
  predicate DeviceText(t: string) { TidyLine(Line(Some(t), DevId, false)) }

  /** A line without an option, or one option and its value as the daemon prints them. */
  predicate OrderlyText(t: string) {
    Unkeyed(t) || DeviceText(t) || (Title(t).Some? && OptionText(t, Title(t).value) && Body(t) == t)
  }

  /**
   Every line is orderly, no option but device-id stands twice, none beside a rival, and the
   device ids are distinct and no end markers.
   */
  ghost predicate Orderly(lines: seq<Line>) {
    && (forall i :: 0 <= i < |lines| ==> lines[i].text.Some? && OrderlyText(lines[i].text.value))
    && (forall i, j :: 0 <= i < j < |lines| && KeyAt(lines[i]).Some? && KeyAt(lines[i]) != Some(DevId) ==>
          KeyAt(lines[i]) != KeyAt(lines[j]))
    && (forall i, j :: 0 <= i < |lines| && 0 <= j < |lines| && KeyAt(lines[i]).Some? && KeyAt(lines[j]).Some? ==>
          !Clash(KeyAt(lines[i]).value, KeyAt(lines[j]).value))
    && Distinct(Devs(lines)) && Ids(Devs(lines))
  }

  /** Device ids are orderly whatever they are. */
  lemma DeviceOrderly(v: int, p: int)
    ensures OrderlyText(LineOf(DevId, DevIdText(v, p)))
  {
    hide TidyLine, DevIdText, LineOf, Unkeyed, Title, OptionText;
    DevLine(v, p, false);
  }

  lemma OrderlyFormed(t: string, before: Reader)
    requires OrderlyText(t) && before.Valid()
    ensures Formed(Line(Some(t), ParseLine(t, before).tag, false))
  {
    hide ParseLine, Title, Spells, OptionOf, TidyLine, Refuses, Body;
    if Unkeyed(t) {
      ParseUnkeyed(t, before);
    } else if DeviceText(t) {
      var l := Line(Some(t), DevId, false);
      KeptDev(l);
      DevTag(l, before);
    } else {
      var l := Line(Some(t), ReadTag(t), false);
      KeptOption(t, Title(t).value);
      TagLocal(l, before);
    }
  }

  /** The table of an orderly file is one to which the equivalence applies. */
  lemma OrderlyFits(text: string)
    requires Orderly(RememberFrom(text, Start()))
    ensures Fit(RememberFrom(text, Start()))
  {
    hide RememberFrom, ParseLine, Formed, OrderlyText, KeyAt, Settable, Clash, Devs, Distinct, Ids, Slot;
    var lines := RememberFrom(text, Start());
    forall i | 0 <= i < |lines| ensures Formed(lines[i]) {
      var before := RememberedLine(text, Start(), i);
      OrderlyFormed(lines[i].text.value, before);
    }
    OrderlyShape(lines);
    forall k, j | Clash(k, j) && Settable(j) ensures Slot(lines, k) == None || Slot(lines, j) == None {
      NoRivals(lines, k, j);
    }
  }

  lemma OrderlyShape(lines: seq<Line>)
    requires Orderly(lines) && forall i :: 0 <= i < |lines| ==> Formed(lines[i])
    ensures Shape(lines)
  {
    hide Formed, OrderlyText, KeyAt, Clash, Devs, Distinct, Ids;
    forall i | 0 <= i < |lines| && lines[i].text.Some? && Settable(lines[i].tag)
      ensures KeyAt(lines[i]) == Some(lines[i].tag)
    {
      TaggedTitle(lines[i], lines[i].tag);
    }
  }

  lemma NoRivals(lines: seq<Line>, k: Key, j: Key)
    requires Shape(lines) && Orderly(lines) && Clash(k, j) && Settable(j)
    ensures Slot(lines, k) == None || Slot(lines, j) == None
  {
    hide Shape, Slot, KeyAt, OrderlyText, Settable;
    ClashSettable(k, j);
    if Slot(lines, k).Some? && Slot(lines, j).Some? {
      var a := SlotHolder(lines, k);
      var b := SlotHolder(lines, j);
      HolderTitle(lines, k, a);
      HolderTitle(lines, j, b);
    }
  }

  lemma HolderTitle(lines: seq<Line>, k: Key, i: nat)
    requires Shape(lines) && Settable(k) && i < |lines| && Tagged(lines[i], k)
    ensures KeyAt(lines[i]) == Some(k)
  {
    hide Formed, Order, Devs, KeyAt;
    TaggedTitle(lines[i], k);
  }

  /** A file of one comment: every save with repeat on overwrites it. */
  lemma NoteOverwritten(c: Cfg<real>)
    requires c.Shaped()
    ensures var lines := RememberFrom("# note\n", Start());
            && lines == [Line(Some("# note"), Repeat, false)] && Foreign(lines[0])
            && (RepeatSafe(lines, c) <==> c.repeat == -1)
            && (c.repeat != -1 ==> |Save(lines, c)| > 0 && Save(lines, c)[0] != lines[0])
  {
    hide RememberFrom, Save, Foreign, ParseLine, RepeatSafe, FirstRepeat, Unread;
    var l := Line(Some("# note"), Repeat, false);
    NoteRead();
    assert Shape([l]) by { NoteShape(); }
    RepeatSafeIs([l], c);
    assert FirstRepeat([l]) == Some(0) by { NoteFirst(); }
    if c.repeat != -1 { var j := ForeignOverwritten([l], c); }
  }

  lemma NoteText()
    ensures Unread("# note") && NoBreak("# note") && RmName("# note") == None
  {
  }

  lemma NoteRead()
    ensures RememberFrom("# note\n", Start()) == [Line(Some("# note"), Repeat, false)]
    ensures Foreign(Line(Some("# note"), Repeat, false)) && OptionOf("# note") == None
  {
    hide RememberFrom, Foreign, ParseLine, Unread, NoBreak, RmName;
    NoteText();
    UnreadForeign("# note", Start());
    RememberLine("# note", "", Start());
    RememberNothing(ParseLine("# note", Start()).st);
    assert "# note" + "\n" + "" == "# note\n";
    assert ParseLine("# note", Start()).tag == Repeat by { UnreadTag("# note", Start()); }
  }

  lemma UnreadTag(t: string, st: Reader)
    requires OptionOf(t) == None && st.Valid()
    ensures ParseLine(t, st).tag == Repeat
  {
    hide Tokens, ParseKey;
  }

  lemma NoteShape()
    ensures Shape([Line(Some("# note"), Repeat, false)])
  {
    hide Shape, Devs, DevOf, KeyAt, Exclusive, Ids;
    var l := Line(Some("# note"), Repeat, false);
    EmptyFits();
    NoteFormed();
    ShapeAdd([], l);
    assert [] + [l] == [l];
  }

  lemma NoteFormed()
    ensures var l := Line(Some("# note"), Repeat, false); Formed(l) && KeyAt(l) == None && DevOf(l) == None
  {
    hide RmName, OptionOf, NoBreak, ParseKey, Foreign, RememberFrom, Unread;
    NoteText();
    NoteRead();
  }

  lemma NoteFirst()
    ensures FirstRepeat([Line(Some("# note"), Repeat, false)]) == Some(0)
  {
    FindIsFirst(Put(Repeat, ""), [Line(Some("# note"), Repeat, false)]);
  }

  // ---- the file of earlier saves ---------------------------------------------------------------------------------

  function SavesOf(h: seq<Cfg<real>>): (t: seq<Turn>)
    ensures |t| == |h| && forall i :: 0 <= i < |h| ==> t[i] == Saves(h[i])
  {
    seq(|h|, i requires 0 <= i < |h| => Saves(h[i]))
  }

  lemma {:induction false} TableOfSaves(h: seq<Cfg<real>>)
    requires History(h)
    ensures Turns(SavesOf(h)) && TableAfter([], SavesOf(h)) == Table(h)
  {
    hide Save, Printable, RememberFrom, Text;
    if h != [] {
      TableOfSaves(h[..|h| - 1]);
      assert SavesOf(h)[..|h| - 1] == SavesOf(h[..|h| - 1]);
    }
  }

  /** A line of a reread table stays whatever its owner: none of them is the daemon's own. */
  ghost predicate StaysReread(lines: seq<Line>, c: Cfg<real>, k: Key)
    requires c.Shaped() && Settable(k)
  {
    Slot(lines, k).Some? && Wanted(c, k) == None && (!Decided(c, k) || RefusedLeft(lines, c, k) || OwnOnly(c, k))
  }

  lemma {:induction false} RememberedOwn(text: string, st: Reader)
    requires st.Valid()
    ensures forall l :: l in RememberFrom(text, st) ==> !l.own && l.text.Some?
    decreases |text|
  {
    hide ParseLine, Chop;
    if text != "" {
      var n := FgetsLength(text);
      RememberedOwn(text[n..], ParseLine(Chop(text[..n]), st).st);
    }
  }

  lemma StaysAfterReload(text: string, c: Cfg<real>, k: Key)
    requires c.Shaped() && Settable(k)
    ensures var lines := RememberFrom(text, Start()); Stays(lines, c, k) <==> StaysReread(lines, c, k)
  {
    hide RememberFrom, Wanted, Decided, RefusedLeft, OwnOnly, Slot;
    var lines := RememberFrom(text, Start());
    RememberedOwn(text, Start());
    if Slot(lines, k).Some? { var i := SlotHolder(lines, k); assert lines[i] in lines; }
  }

  /** ComesBack for a reread table. */
  ghost predicate ComesBackReread(lines: seq<Line>, c: Cfg<real>)
    requires c.Shaped()
  {
    && Faithful(c) && RepeatKept(lines, c)
    && (forall k :: Settable(k) && StaysReread(lines, c, k) ==> Says(Slot(lines, k).value, c, k))
    && (AllTwo(c.dead) ==> forall i :: 6 <= i < MAX_AXES ==>
          StaysReread(lines, c, DeadZone) || StaysReread(lines, c, DeadZoneN(i)))
    && exists n :: 0 <= n <= MAX_CUSTOM && Compact(c.devid, n) && Devs(lines) <= Pairs(c.devid[..n])
  }

  /**
   The ordinary start: the file of any history of saves is read, and one configuration is
   saved over it.
   */
  lemma ReloadThenSave(h: seq<Cfg<real>>, c: Cfg<real>)
    requires c.Shaped() && History(h) && Printable(c) && DevIds(c.devid)
    requires var lines := RememberFrom(FileAfter(h), Start()); !ReadFrom(Text(Save(lines, c)), Start()).Overflowed()
    ensures var lines := RememberFrom(FileAfter(h), Start());
            Read(Text(Save(lines, c))) == c <==> ComesBackReread(lines, c)
  {
    hide Save, Printable, Text, ReadFrom, RememberFrom, Stays, StaysReread, Says, Fit, RepeatKept, Faithful, Compact,
      Devs, AllTwo, Slot, Settable, Table, FileAfter, TableAfter;
    TableOfSaves(h);
    var t := SavesOf(h) + [Rereads];
    var lines := RememberFrom(FileAfter(h), Start());
    assert Turns(t) && TableAfter([], t) == lines by { OneReload(SavesOf(h)); FileIs(h); }
    EmptyFits();
    LastSaveWinsMixed([], t, c);
    forall k | Settable(k)
      ensures Stays(lines, c, k) <==> StaysReread(lines, c, k)
    {
      StaysAfterReload(FileAfter(h), c, k);
    }
    forall i | 6 <= i < MAX_AXES ensures Settable(DeadZone) && Settable(DeadZoneN(i)) { DeadSettable(i); }
    DeadSettable(0);
  }

  lemma FileIs(h: seq<Cfg<real>>)
    requires Configs(h)
    ensures FileAfter(h) == Text(Table(h))
  {
  }

  lemma OneReload(h: seq<Turn>)
    requires Turns(h)
    ensures Turns(h + [Rereads]) && TableAfter([], h + [Rereads]) == RememberFrom(Text(TableAfter([], h)), Start())
  {
    hide Printable, Text, RememberFrom, Save;
    assert (h + [Rereads])[..|h|] == h;
  }
}
