/**
 Reading back the tables that saves and reloads leave: the value of each field, the
 device ids, and the table a reload remembers.
 */
module CfgReread {
  import opened Basics
  import opened CText
  import opened Config
  import opened CfgKeys
  import opened CfgTable
  import opened CfgWrite
  import opened CfgRead
  import opened CfgSave
  import opened CfgReload
  import opened CfgForeign
  import opened CfgShape

  // ---- reading one line ------------------------------------------------------------------

  /** What a line alone makes of a field. */
  function Said(t: string, f: Field): Val
    requires InRange(f)
  {
    Get(ParseLine(Body(t), Start()).st.cfg, f)
  }

  // A field at its default gets the same value whatever the other fields hold.

  lemma LocalFloat(k: Key, w: string, a: Reader, b: Reader, f: Field)
    requires a.Valid() && b.Valid() && Saved(k) && InRange(f) && Affects(k, f)
    requires k.Sens? || k.SensTrans? || k.SensT? || k.SensRot? || k.SensR?
    ensures Get(ParseOption(k, w, a).st.cfg, f) == Get(ParseOption(k, w, b).st.cfg, f)
  {
    hide ScanReal, StoreDead, StoreMap, StoreInvert, StoreFlag;
  }

  lemma LocalDead(k: Key, w: string, a: Reader, b: Reader, f: Field)
    requires a.Valid() && b.Valid() && Saved(k) && InRange(f) && Affects(k, f) && (k.DeadZone? || k.DeadZoneN?)
    ensures Get(ParseOption(k, w, a).st.cfg, f) == Get(ParseOption(k, w, b).st.cfg, f)
  {
    hide ScanInt, IsBoolVal, BoolWord, StoreFloat, StoreMap, StoreInvert, StoreFlag;
  }

  lemma LocalInvert(k: Key, w: string, a: Reader, b: Reader, f: Field)
    requires a.Valid() && b.Valid() && Saved(k) && InRange(f) && Affects(k, f) && (k.InvTrans? || k.InvRot?)
    requires Get(a.cfg, f) == Get(b.cfg, f)
    ensures Get(ParseOption(k, w, a).st.cfg, f) == Get(ParseOption(k, w, b).st.cfg, f)
  {
    hide ParseOption, Get, NormalField, DefaultField;
    InvertAt(k, w, a, f.i);
    InvertAt(k, w, b, f.i);
    InvertGet(a.cfg, f.i);
    InvertGet(b.cfg, f.i);
    InvertGet(ParseOption(k, w, a).st.cfg, f.i);
    InvertGet(ParseOption(k, w, b).st.cfg, f.i);
  }

  lemma LocalMap(k: Key, w: string, a: Reader, b: Reader, f: Field)
    requires a.Valid() && b.Valid() && Saved(k) && InRange(f) && Affects(k, f)
    requires k.AxisMap? || k.BnMap? || k.BnHold? || k.BnAct? || k.KbMap?
    requires Get(a.cfg, f) == Get(b.cfg, f)
    ensures Get(ParseOption(k, w, a).st.cfg, f) == Get(ParseOption(k, w, b).st.cfg, f)
  {
    hide ScanInt, IsBoolVal, BoolWord, ParseBnact, StoreFloat, StoreDead, StoreInvert, StoreFlag;
  }

  lemma LocalFlag(k: Key, w: string, a: Reader, b: Reader, f: Field)
    requires a.Valid() && b.Valid() && Saved(k) && InRange(f) && Affects(k, f)
    requires k.Repeat? || k.Hold? || k.SwapYZ? || k.Led? || k.Grab? || k.Serial? || k.SockPath?
    requires Get(a.cfg, f) == Get(b.cfg, f)
    ensures Get(ParseOption(k, w, a).st.cfg, f) == Get(ParseOption(k, w, b).st.cfg, f)
  {
    hide ScanInt, IsBoolVal, BoolWord, StoreFloat, StoreDead, StoreInvert, StoreMap, ScanDevId;
  }

  lemma StoreLocal(k: Key, w: string, a: Reader, b: Reader, f: Field)
    requires a.Valid() && b.Valid() && Single(k) && InRange(f) && Affects(k, f) && Get(a.cfg, f) == Get(b.cfg, f)
    ensures Get(ParseOption(k, w, a).st.cfg, f) == Get(ParseOption(k, w, b).st.cfg, f)
  {
    hide ParseOption, Get, Affects;
    match k
    case Sens => LocalFloat(k, w, a, b, f);
    case SensTrans => LocalFloat(k, w, a, b, f);
    case SensT(_) => LocalFloat(k, w, a, b, f);
    case SensRot => LocalFloat(k, w, a, b, f);
    case SensR(_) => LocalFloat(k, w, a, b, f);
    case DeadZone => LocalDead(k, w, a, b, f);
    case DeadZoneN(_) => LocalDead(k, w, a, b, f);
    case InvTrans => LocalInvert(k, w, a, b, f);
    case InvRot => LocalInvert(k, w, a, b, f);
    case AxisMap(_) => LocalMap(k, w, a, b, f);
    case BnMap(_) => LocalMap(k, w, a, b, f);
    case BnHold(_) => LocalMap(k, w, a, b, f);
    case BnAct(_) => LocalMap(k, w, a, b, f);
    case KbMap(_) => LocalMap(k, w, a, b, f);
    case _ => LocalFlag(k, w, a, b, f);
  }

  // the line holds an option that stores into the field
  predicate HoldsField(l: Line, f: Field) { l.text.Some? && Settable(l.tag) && Affects(l.tag, f) }

  lemma HeldLine(l: Line, st: Reader, f: Field)
    requires Formed(l) && st.Valid() && InRange(f) && HoldsField(l, f) && Get(st.cfg, f) == DefaultField(f)
    ensures Get(ParseLine(Body(l.text.value), st).st.cfg, f) == Said(l.text.value, f)
  {
    hide ParseLine, ParseOption, Get, Affects, Spells, Title, Body, DefaultField, ValueIn, Unkeyed;
    var t, k := l.text.value, l.tag;
    DefaultGet(f);
    FormedTag(l);
    ParseSpelled(t, k, st);
    ParseSpelled(t, k, Start());
    if ValueIn(t, k) != "" { StoreLocal(k, ValueIn(t, k), st, Start(), f); }
  }

  /** Any other line leaves the field alone. */
  lemma OtherLine(l: Line, st: Reader, f: Field)
    requires Formed(l) && l.text.Some? && st.Valid() && InRange(f) && !HoldsField(l, f)
    requires f == FRepeat ==> KeyAt(l) != Some(Repeat)
    ensures Get(ParseLine(Body(l.text.value), st).st.cfg, f) == Get(st.cfg, f)
  {
    hide ParseLine, ParseOption, Get, Spells, Title, Body, ValueIn, TidyLine, DevOf, DevIdText, Unkeyed;
    var t := l.text.value;
    if l.tag == DevId {
      TidyDev(l);
      ParseDevLine(l, st);
      StoreFrame(DevId, DevIdText(DevOf(l).value.0, DevOf(l).value.1), st, f);
    } else if Title(t) == None {
      ParseUnkeyed(t, st);
    } else {
      var k := Title(t).value;
      ParseSpelled(t, k, st);
      if ValueIn(t, k) != "" {
        if l.tag == k {
          StoreFrame(k, ValueIn(t, k), st, f);
        } else {
          RefusedTag(k, ValueIn(t, k), st);
        }
      }
    }
  }

  // ---- reading the fields of a table ---------------------------------------------------------

  lemma {:induction false} FoldUnheld(lines: seq<Line>, n: nat, f: Field)
    requires Shape(lines) && n <= |lines| && InRange(f) && f != FRepeat
    requires forall i :: 0 <= i < n ==> !HoldsField(lines[i], f)
    ensures Get(Fold(lines[..n]).cfg, f) == DefaultField(f)
  {
    hide ParseLine, Body, Get, DefaultField, HoldsField, Formed, Order, Devs;
    if n == 0 {
      DefaultGet(f);
    } else {
      FoldUnheld(lines, n - 1, f);
      assert lines[..n][..n - 1] == lines[..n - 1];
      if lines[n - 1].text.Some? { OtherLine(lines[n - 1], Fold(lines[..n - 1]), f); }
    }
  }

  lemma {:induction false} FoldHeld(lines: seq<Line>, n: nat, f: Field, h: nat)
    requires Shape(lines) && h < n <= |lines| && InRange(f) && f != FRepeat && HoldsField(lines[h], f)
    requires forall i :: 0 <= i < n && i != h ==> !HoldsField(lines[i], f)
    ensures Get(Fold(lines[..n]).cfg, f) == Said(lines[h].text.value, f)
  {
    hide ParseLine, Body, Get, DefaultField, Formed, Order, Devs, Affects, Settable;
    assert lines[..n][..n - 1] == lines[..n - 1];
    if h == n - 1 {
      FoldUnheld(lines, n - 1, f);
      HeldLine(lines[h], Fold(lines[..n - 1]), f);
    } else {
      FoldHeld(lines, n - 1, f, h);
      if lines[n - 1].text.Some? { OtherLine(lines[n - 1], Fold(lines[..n - 1]), f); }
    }
  }

  /** Options that store into a common field. */
  predicate Clash(k: Key, j: Key) {
    (k == SensTrans && j.SensT?) || (k == SensRot && j.SensR?) || (k == DeadZone && j.DeadZoneN?)
  }

  /** No option stands beside another that stores into the same field. */
  ghost predicate Exclusive(lines: seq<Line>) {
    forall k, j :: Clash(k, j) && Settable(j) ==> Slot(lines, k) == None || Slot(lines, j) == None
  }

  lemma CommonField(k: Key, j: Key, f: Field)
    requires Affects(k, f) && Affects(j, f)
    ensures k == j || Clash(k, j) || Clash(j, k)
  {
  }

  lemma ClashSettable(k: Key, j: Key)
    requires Clash(k, j)
    ensures Settable(k)
  {
  }

  lemma OneHolder(lines: seq<Line>, f: Field, h: nat, i: nat)
    requires Shape(lines) && Exclusive(lines) && h < |lines| && i < |lines|
    requires HoldsField(lines[h], f) && HoldsField(lines[i], f)
    ensures h == i
  {
    hide Shape, Affects, Settable, Slot;
    var k, j := lines[h].tag, lines[i].tag;
    CommonField(k, j, f);
    SlotIs(lines, k, h);
    SlotIs(lines, j, i);
    if k == j { TwoHolders(lines, k, h, i); }
  }

  /** The field of an option the table holds is what its line says. */
  lemma FieldHeld(lines: seq<Line>, k: Key, f: Field)
    requires Shape(lines) && Exclusive(lines) && Settable(k) && InRange(f) && Affects(k, f) && Slot(lines, k).Some?
    ensures Slot(lines, k).value.text.Some? && Get(Fold(lines).cfg, f) == Said(Slot(lines, k).value.text.value, f)
  {
    hide Shape, Exclusive, Slot, Said, Fold, Get;
    var h := SlotHolder(lines, k);
    forall i | 0 <= i < |lines| && i != h ensures !HoldsField(lines[i], f) {
      if HoldsField(lines[i], f) { OneHolder(lines, f, h, i); }
    }
    assert f != FRepeat;
    FoldHeld(lines, |lines|, f, h);
    assert lines[..|lines|] == lines;
  }

  lemma FieldUnheld(lines: seq<Line>, f: Field)
    requires Shape(lines) && InRange(f) && f != FRepeat
    requires forall k :: Settable(k) && Affects(k, f) ==> Slot(lines, k) == None
    ensures Get(Fold(lines).cfg, f) == DefaultField(f)
  {
    hide Shape, Slot, Fold, Get, DefaultField, Affects, Settable;
    forall i | 0 <= i < |lines| ensures !HoldsField(lines[i], f) {
      if HoldsField(lines[i], f) { SlotIs(lines, lines[i].tag, i); }
    }
    FoldUnheld(lines, |lines|, f);
    assert lines[..|lines|] == lines;
  }

  // ---- repeat-interval ----------------------------------------------------------------------------

  // what a repeat-interval line says
  function RepeatIn(t: string): int { ParseLine(Body(t), Start()).st.cfg.repeat }

  /** What the repeat-interval lines say, in order. */
  function Repeats(lines: seq<Line>): seq<int> {
    if lines == [] then []
    else
      var l := lines[|lines| - 1];
      Repeats(lines[..|lines| - 1]) + if KeyAt(l) == Some(Repeat) then [RepeatIn(l.text.value)] else []
  }

  function Last(vs: seq<int>): int { if vs == [] then -1 else vs[|vs| - 1] }

  lemma RepeatSays(l: Line, st: Reader)
    requires l.text.Some? && Formed(l) && KeyAt(l) == Some(Repeat) && st.Valid()
    ensures ParseLine(Body(l.text.value), st).st.cfg.repeat == RepeatIn(l.text.value)
  {
    hide ParseLine, Spells, Title, Body, ValueIn, TidyLine, ScanInt, IsBoolVal, Unkeyed;
    var t := l.text.value;
    FormedTag(l);
    ParseSpelled(t, Repeat, st);
    ParseSpelled(t, Repeat, Start());
  }

  lemma NotRepeat(l: Line, st: Reader)
    requires l.text.Some? && Formed(l) && KeyAt(l) != Some(Repeat) && st.Valid()
    ensures ParseLine(Body(l.text.value), st).st.cfg.repeat == st.cfg.repeat
  {
    hide ParseLine, Body, Formed, KeyAt;
    assert !HoldsField(l, FRepeat);
    OtherLine(l, st, FRepeat);
  }

  lemma {:induction false} FoldRepeat(lines: seq<Line>, n: nat)
    requires Shape(lines) && n <= |lines|
    ensures Fold(lines[..n]).cfg.repeat == Last(Repeats(lines[..n]))
  {
    hide ParseLine, Body, Formed, Order, Devs, RepeatIn, KeyAt;
    if n > 0 {
      FoldRepeat(lines, n - 1);
      assert lines[..n][..n - 1] == lines[..n - 1];
      var l, st := lines[n - 1], Fold(lines[..n - 1]);
      if l.text.Some? {
        if KeyAt(l) == Some(Repeat) { RepeatSays(l, st); } else { NotRepeat(l, st); }
      } else {
        assert KeyAt(l) == None by { GoneFormed(l); }
      }
    }
  }

  lemma {:induction false} RepeatsConcat(a: seq<Line>, b: seq<Line>)
    ensures Repeats(a + b) == Repeats(a) + Repeats(b)
  {
    hide KeyAt, RepeatIn;
    if b == [] {
      assert a + b == a;
    } else {
      assert (a + b)[..|a + b| - 1] == a + b[..|b| - 1];
      RepeatsConcat(a, b[..|b| - 1]);
    }
  }

  lemma RepeatsOne(l: Line)
    ensures Repeats([l]) == if KeyAt(l) == Some(Repeat) then [RepeatIn(l.text.value)] else []
  {
    hide KeyAt, RepeatIn;
    assert [l][..0] == [];
  }

  lemma RepeatsSet(lines: seq<Line>, i: nat, l: Line)
    requires i < |lines|
    ensures Repeats(lines) == Repeats(lines[..i]) + Repeats([lines[i]]) + Repeats(lines[i + 1..])
    ensures Repeats(lines[i := l]) == Repeats(lines[..i]) + Repeats([l]) + Repeats(lines[i + 1..])
  {
    hide Repeats;
    var a, z := lines[..i], lines[i + 1..];
    assert lines == a + [lines[i]] + z && lines[i := l] == a + [l] + z;
    RepeatsConcat(a, [lines[i]]);
    RepeatsConcat(a + [lines[i]], z);
    RepeatsConcat(a, [l]);
    RepeatsConcat(a + [l], z);
  }

  lemma {:induction false} NoRepeats(lines: seq<Line>)
    requires forall i :: 0 <= i < |lines| ==> KeyAt(lines[i]) != Some(Repeat)
    ensures Repeats(lines) == []
  {
    hide KeyAt;
    if lines != [] { NoRepeats(lines[..|lines| - 1]); }
  }

  // ---- device ids -------------------------------------------------------------------------------------

  lemma OtherDevs(l: Line, st: Reader)
    requires Formed(l) && l.text.Some? && l.tag != DevId && st.Valid()
    ensures var r := ParseLine(Body(l.text.value), st).st; r.numDev == st.numDev && r.cfg.devid == st.cfg.devid
  {
    hide ParseLine, ParseOption, Spells, Title, Body, ValueIn, Unkeyed;
    var t := l.text.value;
    if Title(t) == None {
      ParseUnkeyed(t, st);
    } else {
      var k := Title(t).value;
      ParseSpelled(t, k, st);
      if ValueIn(t, k) != "" { StoreDevs(k, ValueIn(t, k), st); }
    }
  }

  lemma {:induction false} FoldShapeDevs(lines: seq<Line>, n: nat)
    requires Shape(lines) && n <= |lines|
    ensures DevsOk(Fold(lines[..n]), Devs(lines[..n]))
  {
    hide ParseLine, Body, TidyLine, DevOf, Order, PadDevs, Title, OptionText;
    if n > 0 {
      FoldShapeDevs(lines, n - 1);
      assert lines[..n][..n - 1] == lines[..n - 1];
      var l, st := lines[n - 1], Fold(lines[..n - 1]);
      assert Formed(l);
      if l.text.Some? && l.tag == DevId {
        FoldDevLine(l, st, Devs(lines[..n - 1]));
        TidyDev(l);
      } else {
        OtherDev(l);
        if l.text.Some? { OtherDevs(l, st); }
      }
    }
  }

  lemma ShapeReadable(lines: seq<Line>)
    requires Shape(lines)
    ensures AllReadable(lines)
  {
    hide NoBreak, TidyLine, Title, Refuses, Order, Devs, OptionOf, ParseLine;
    forall i | 0 <= i < |lines| && lines[i].text.Some? ensures Readable(lines[i].text.value) {
      assert Formed(lines[i]);
      if lines[i].tag == DevId {
        ParseDevLine(lines[i], Start());
      } else if Title(lines[i].text.value) == None {
        ParseUnkeyed(lines[i].text.value, Start());
      }
    }
  }

  /** Reading the text of such a table is folding its lines, and its device ids are those of the table. */
  lemma ReadShape(lines: seq<Line>)
    requires Shape(lines)
    ensures ReadFrom(Text(lines), Start()) == Fold(lines) && DevsOk(Fold(lines), Devs(lines))
  {
    hide Shape, Fold, Text, ReadFrom, DevsOk;
    ShapeReadable(lines);
    ReadIsFold(lines);
    FoldShapeDevs(lines, |lines|);
    assert lines[..|lines|] == lines;
  }
}
