/**
 write_cfg: the editing steps a configuration calls for, and the code that takes them.
 */
module CfgWrite {
  import opened Basics
  import opened CText
  import opened Config
  import opened CfgKeys
  import opened CfgTable

  predicate Uniform(d: seq<int>) { forall i :: 1 <= i < |d| ==> d[i] == d[i - 1] }

  predicate All3(v: seq<real>)
    requires |v| == 3
  {
    v[0] == v[1] && v[1] == v[2]
  }

  // the letters of invert-trans and invert-rot
  function Flags(x: bool, y: bool, z: bool): string {
    (if x then "x" else "") + (if y then "y" else "") + (if z then "z" else "")
  }

  function BnactName(act: int): string {
    if act == BNACT_NONE then "none"
    else if act == BNACT_SENS_INC then "sensitivity-up"
    else if act == BNACT_SENS_DEC then "sensitivity-down"
    else if act == BNACT_SENS_RESET then "sensitivity-reset"
    else if act == BNACT_DISABLE_ROTATION then "disable-rotation"
    else if act == BNACT_DISABLE_TRANSLATION then "disable-translation"
    else if act == BNACT_DOMINANT_AXIS then "dominant-axis"
    else "none"
  }

  function When(b: bool, s: string): Option<string> { if b then Some(s) else None }

  function Float3(x: real): (s: string)
    ensures s != "" && SepFree(s)
  {
    Fixed3(Thousandths(x))
  }

  /** The value printed for option k; None when the option is at its default and gets no line. */
  function Wanted(c: Cfg<real>, k: Key): Option<string>
    requires c.Shaped() && Saved(k)
  {
    match k
    case Sens => When(c.sensitivity != 1.0, Float3(c.sensitivity))
    case SensTrans => When(All3(c.sensTrans) && c.sensTrans[0] != 1.0, Float3(c.sensTrans[0]))
    case SensT(a) => When(!All3(c.sensTrans) && c.sensTrans[a] != 1.0, Float3(c.sensTrans[a]))
    case SensRot => When(All3(c.sensRot) && c.sensRot[0] != 1.0, Float3(c.sensRot[0]))
    case SensR(a) => When(!All3(c.sensRot) && c.sensRot[a] != 1.0, Float3(c.sensRot[a]))
    case DeadZone => When(Uniform(c.dead) && c.dead[0] != 2, Dec(c.dead[0]))
    case DeadZoneN(i) => When(!Uniform(c.dead) && c.dead[i] != DefaultDeadAt(i), Dec(c.dead[i]))
    case Repeat => When(c.repeat != -1, Dec(c.repeat) + "\n")
    case Hold => When(c.holdTimeout != 350, Dec(c.holdTimeout))
    case InvTrans => When(c.invert[0] || c.invert[1] || c.invert[2], Flags(c.invert[0], c.invert[1], c.invert[2]))
    case InvRot => When(c.invert[3] || c.invert[4] || c.invert[5], Flags(c.invert[3], c.invert[4], c.invert[5]))
    case SwapYZ => When(c.swapyz != 0, "true")
    case AxisMap(i) => When(c.mapAxis[i] != i, Dec(c.mapAxis[i]))
    case BnMap(i) => When(c.mapButton[i] != i, Dec(c.mapButton[i]))
    case BnHold(i) => When(c.mapHold[i] >= 0, Dec(c.mapHold[i]))
    case BnAct(i) => When(c.bnact[i] != BNACT_NONE, BnactName(c.bnact[i]))
    case KbMap(i) => When(c.kbmapStr[i] != "", c.kbmapStr[i])
    case Led => When(c.led != LED_ON, if c.led != 0 then (if c.led == LED_AUTO then "auto" else "on") else "off")
    case Grab => When(c.grab != 1, if c.grab != 0 then "true" else "false")
    case Serial => When(c.serial != "", c.serial)
    case SockPath => When(c.sockpath != "", c.sockpath)
    case DevId => None
    case DeadAxis(_) => None
    case UseX11 => None
  }

  // ---- the steps, in the order of write_cfg ------------------------------------

  function Set(c: Cfg<real>, k: Key, ownOnly: bool): Op
    requires c.Shaped() && Saved(k)
  {
    match Wanted(c, k)
    case Some(v) => Put(k, v)
    case None => Del(k, ownOnly)
  }

  function Whole(rot: bool): Key { if rot then SensRot else SensTrans }

  function Axis(rot: bool, a: int): Key { if rot then SensR(a) else SensT(a) }

  function AxisOps(v: seq<real>, rot: bool, a: nat): seq<Op>
    requires |v| == 3 && a < 3
  {
    if v[a] != 1.0 then [Put(Axis(rot, a), Float3(v[a])), Del(Whole(rot), false)]
    else [Del(Axis(rot, a), true)]
  }

  function TriOps(v: seq<real>, rot: bool): seq<Op>
    requires |v| == 3
  {
    if All3(v) then
      [Del(Axis(rot, 0), false), Del(Axis(rot, 1), false), Del(Axis(rot, 2), false)] +
      [if v[0] != 1.0 then Put(Whole(rot), Float3(v[0])) else Del(Whole(rot), true)]
    else AxisOps(v, rot, 0) + AxisOps(v, rot, 1) + AxisOps(v, rot, 2)
  }

  function RemoveDeadN(n: nat): seq<Op> {
    if n == 0 then [] else RemoveDeadN(n - 1) + [Del(DeadZoneN(n - 1), false)]
  }

  function DeadAxisOps(d: seq<int>, i: nat): seq<Op>
    requires i < |d|
  {
    if d[i] != DefaultDeadAt(i) then [Put(DeadZoneN(i), Dec(d[i])), Del(DeadZone, false)]
    else [Del(DeadZoneN(i), true)]
  }

  function DeadEach(d: seq<int>, n: nat): seq<Op>
    requires n <= |d|
  {
    if n == 0 then [] else DeadEach(d, n - 1) + DeadAxisOps(d, n - 1)
  }

  function DeadOps(d: seq<int>): seq<Op>
    requires |d| == MAX_AXES
  {
    if Uniform(d) then
      if d[0] != 2 then [Put(DeadZone, Dec(d[0]))] + RemoveDeadN(MAX_AXES) else [Del(DeadZone, true)]
    else DeadEach(d, MAX_AXES)
  }

  datatype Family = Axes | Buttons | Holds | Actions | Keyboard

  function Member(f: Family, i: int): Key {
    match f
    case Axes => AxisMap(i)
    case Buttons => BnMap(i)
    case Holds => BnHold(i)
    case Actions => BnAct(i)
    case Keyboard => KbMap(i)
  }

  function FamilyOps(c: Cfg<real>, f: Family, n: nat): seq<Op>
    requires c.Shaped() && n <= 64
  {
    if n == 0 then [] else FamilyOps(c, f, n - 1) + [Set(c, Member(f, n - 1), false)]
  }

  function DevOps(ds: seq<(int, int)>): seq<Op> {
    if ds == [] then []
    else
      var d := ds[|ds| - 1];
      DevOps(ds[..|ds| - 1]) + if d.0 != -1 && d.1 != -1 then [PutDev(d.0, d.1)] else []
  }

  function FlagOps(c: Cfg<real>): seq<Op>
    requires c.Shaped()
  {
    [Set(c, Repeat, false), Set(c, Hold, true), Set(c, InvTrans, false), Set(c, InvRot, false), Set(c, SwapYZ, false)]
  }

  function FamiliesOps(c: Cfg<real>): seq<Op>
    requires c.Shaped()
  {
    FamilyOps(c, Axes, 64) + FamilyOps(c, Buttons, 64) + FamilyOps(c, Holds, 64) +
    FamilyOps(c, Actions, 64) + FamilyOps(c, Keyboard, 64)
  }

  function DeviceOps(c: Cfg<real>): seq<Op>
    requires c.Shaped()
  {
    [Set(c, Led, true), Set(c, Grab, true), Set(c, Serial, false)] + DevOps(c.devid) + [Set(c, SockPath, false)]
  }

  // the steps before repeat-interval
  function FirstOps(c: Cfg<real>): seq<Op>
    requires c.Shaped()
  {
    [Set(c, Sens, false)] + TriOps(c.sensTrans, false) + TriOps(c.sensRot, true) + DeadOps(c.dead)
  }

  /** All the editing steps of write_cfg for configuration c. */
  function Script(c: Cfg<real>): seq<Op>
    requires c.Shaped()
  {
    FirstOps(c) + FlagOps(c) + FamiliesOps(c) + DeviceOps(c)
  }

  function Save(lines: seq<Line>, c: Cfg<real>): seq<Line>
    requires c.Shaped()
  {
    Run(lines, Script(c))
  }

  /** The file written from the table: every remaining line and a newline. */
  function Text(lines: seq<Line>): string {
    if lines == [] then ""
    else
      var last := lines[|lines| - 1];
      Text(lines[..|lines| - 1]) + match last.text case None => "" case Some(t) => t + "\n"
  }

  // ---- composing runs ------------------------------------------------------------

  lemma RunNone(lines: seq<Line>)
    ensures Run(lines, []) == lines
  {
  }

  lemma RunSnoc(lines: seq<Line>, ops: seq<Op>, op: Op)
    ensures Run(lines, ops + [op]) == Apply(op, Run(lines, ops))
  {
    hide Apply;
    assert (ops + [op])[..|ops|] == ops;
  }

  lemma RunOne(lines: seq<Line>, op: Op)
    ensures Run(lines, [op]) == Apply(op, lines)
  {
    RunSnoc(lines, [], op);
    assert [] + [op] == [op];
  }

  lemma RunTwo(lines: seq<Line>, a: Op, b: Op)
    ensures Run(lines, [a, b]) == Apply(b, Apply(a, lines))
  {
    RunOne(lines, a);
    RunSnoc(lines, [a], b);
    assert [a] + [b] == [a, b];
  }

  lemma RunThree(lines: seq<Line>, ops: seq<Op>)
    requires |ops| == 3
    ensures Run(lines, ops) == Apply(ops[2], Apply(ops[1], Apply(ops[0], lines)))
  {
    hide Apply, Run;
    RunTwo(lines, ops[0], ops[1]);
    RunSnoc(lines, [ops[0], ops[1]], ops[2]);
    assert [ops[0], ops[1]] + [ops[2]] == ops;
  }

  lemma RunFive(lines: seq<Line>, ops: seq<Op>)
    requires |ops| == 5
    ensures Run(lines, ops) == Apply(ops[4], Apply(ops[3], Apply(ops[2], Apply(ops[1], Apply(ops[0], lines)))))
  {
    hide Apply, Run;
    RunThree(lines, ops[..3]);
    RunSnoc(lines, ops[..3], ops[3]);
    RunSnoc(lines, ops[..4], ops[4]);
    assert ops[..3] + [ops[3]] == ops[..4] && ops[..4] + [ops[4]] == ops;
  }

  // ---- the code -------------------------------------------------------------------

  class LineTable {
    var lines: seq<Line>

    constructor ()
      ensures lines == []
    {
      lines := [];
    }

    /** find_cfgopt, the search in rm_cfgopt and the search in add_cfgopt_devid: first hit or -1. */
    method FindFirst(op: Op) returns (i: int)
      ensures Find(op, lines) == if i < 0 then None else Some(i)
      ensures -1 <= i < |lines|
    {
      hide Hit;
      FindIsFirst(op, lines);
      i := 0;
      while i < |lines|
        invariant 0 <= i <= |lines| && FindFrom(op, lines, i) == Find(op, lines)
      {
        if Hit(op, lines[i]) { return; }
        i := i + 1;
      }
      i := -1;
    }

    method AddCfgopt(k: Key, val: string)
      modifies this
      ensures lines == Apply(Put(k, val), old(lines))
    {
      hide LineOf, Clip;
      var str := Clip(LineOf(k, val));
      var i := FindFirst(Put(k, val));
      if i < 0 {
        lines := lines + [Line(Some(str), k, true)];
      } else {
        lines := lines[i := lines[i].(text := Some(str), tag := k)];
      }
    }

    method AddCfgoptDevid(vid: int, pid: int)
      modifies this
      ensures lines == Apply(PutDev(vid, pid), old(lines))
    {
      hide LineOf, DevIdText, DevOf;
      var str := LineOf(DevId, DevIdText(vid, pid));
      var i := FindFirst(PutDev(vid, pid));
      if i < 0 {
        lines := lines + [BLANK, Line(Some(str), DevId, false)];
      } else {
        lines := lines[i := lines[i].(text := Some(str), tag := DevId)];
      }
    }

    method RmCfgopt(k: Key, ownOnly: bool)
      modifies this
      ensures lines == Apply(Del(k, ownOnly), old(lines))
    {
      hide Hit;
      var i := FindFirst(Del(k, ownOnly));
      if i < 0 {
        assert lines + [] == lines;
        return;
      }
      if !ownOnly || lines[i].own {
        lines := lines[i := lines[i].(text := None)];
      } else {
        assert lines[i := lines[i]] == lines;
      }
    }

    // set the option or remove it
    method Write(c: Cfg<real>, k: Key, ownOnly: bool)
      requires c.Shaped() && Saved(k)
      modifies this
      ensures lines == Apply(Set(c, k, ownOnly), old(lines))
    {
      hide Wanted, Apply;
      match Wanted(c, k) {
        case Some(v) => AddCfgopt(k, v);
        case None => RmCfgopt(k, ownOnly);
      }
    }

    method WriteAxis(v: seq<real>, rot: bool, a: nat)
      requires |v| == 3 && a < 3
      modifies this
      ensures lines == Run(old(lines), AxisOps(v, rot, a))
    {
      hide Apply, Float3;
      ghost var start := lines;
      if v[a] != 1.0 {
        AddCfgopt(Axis(rot, a), Float3(v[a]));
        RmCfgopt(Whole(rot), false);
        RunTwo(start, Put(Axis(rot, a), Float3(v[a])), Del(Whole(rot), false));
      } else {
        RmCfgopt(Axis(rot, a), true);
        RunOne(start, Del(Axis(rot, a), true));
      }
    }

    method WriteTri(v: seq<real>, rot: bool)
      requires |v| == 3
      modifies this
      ensures lines == Run(old(lines), TriOps(v, rot))
    {
      hide Apply, Float3, Run;
      ghost var start := lines;
      if All3(v) {
        RmCfgopt(Axis(rot, 0), false);
        RmCfgopt(Axis(rot, 1), false);
        RmCfgopt(Axis(rot, 2), false);
        ghost var removed := [Del(Axis(rot, 0), false), Del(Axis(rot, 1), false), Del(Axis(rot, 2), false)];
        RunThree(start, removed);
        if v[0] != 1.0 {
          AddCfgopt(Whole(rot), Float3(v[0]));
          RunSnoc(start, removed, Put(Whole(rot), Float3(v[0])));
        } else {
          RmCfgopt(Whole(rot), true);
          RunSnoc(start, removed, Del(Whole(rot), true));
        }
      } else {
        WriteAxis(v, rot, 0);
        WriteAxis(v, rot, 1);
        WriteAxis(v, rot, 2);
        RunConcat(start, AxisOps(v, rot, 0), AxisOps(v, rot, 1));
        RunConcat(start, AxisOps(v, rot, 0) + AxisOps(v, rot, 1), AxisOps(v, rot, 2));
      }
    }

    method WriteDead(d: seq<int>)
      requires |d| == MAX_AXES
      modifies this
      ensures lines == Run(old(lines), DeadOps(d))
    {
      hide Apply, Run, Dec;
      ghost var start := lines;
      var same := true;
      var i := 1;
      while i < MAX_AXES && same
        invariant 1 <= i <= MAX_AXES
        invariant same <==> forall j :: 1 <= j < i ==> d[j] == d[j - 1]
      {
        if d[i] != d[i - 1] { same := false; }
        i := i + 1;
      }
      if same {
        if d[0] != DefaultDeadAt(0) {
          AddCfgopt(DeadZone, Dec(d[0]));
          RunOne(start, Put(DeadZone, Dec(d[0])));
          assert [Put(DeadZone, Dec(d[0]))] + RemoveDeadN(0) == [Put(DeadZone, Dec(d[0]))];
          for n := 0 to MAX_AXES
            invariant lines == Run(start, [Put(DeadZone, Dec(d[0]))] + RemoveDeadN(n))
          {
            RunSnoc(start, [Put(DeadZone, Dec(d[0]))] + RemoveDeadN(n), Del(DeadZoneN(n), false));
            assert [Put(DeadZone, Dec(d[0]))] + RemoveDeadN(n) + [Del(DeadZoneN(n), false)]
                == [Put(DeadZone, Dec(d[0]))] + RemoveDeadN(n + 1);
            RmCfgopt(DeadZoneN(n), false);
          }
        } else {
          RmCfgopt(DeadZone, true);
          RunOne(start, Del(DeadZone, true));
        }
      } else {
        RunNone(start);
        for n := 0 to MAX_AXES
          invariant lines == Run(start, DeadEach(d, n))
        {
          WriteDeadAxis(d, n, start);
        }
      }
    }

    method WriteDeadAxis(d: seq<int>, n: nat, ghost start: seq<Line>)
      requires n < |d| == MAX_AXES
      requires lines == Run(start, DeadEach(d, n))
      modifies this
      ensures lines == Run(start, DeadEach(d, n + 1))
    {
      hide Apply, Run, Dec;
      ghost var before := lines;
      if d[n] != DefaultDeadAt(n) {
        AddCfgopt(DeadZoneN(n), Dec(d[n]));
        RmCfgopt(DeadZone, false);
        RunTwo(before, Put(DeadZoneN(n), Dec(d[n])), Del(DeadZone, false));
      } else {
        RmCfgopt(DeadZoneN(n), true);
        RunOne(before, Del(DeadZoneN(n), true));
      }
      RunConcat(start, DeadEach(d, n), DeadAxisOps(d, n));
    }

    method WriteFamily(c: Cfg<real>, f: Family)
      requires c.Shaped()
      modifies this
      ensures lines == Run(old(lines), FamilyOps(c, f, 64))
    {
      hide Apply, Run, Set;
      ghost var start := lines;
      RunNone(start);
      for n := 0 to 64
        invariant lines == Run(start, FamilyOps(c, f, n))
      {
        RunSnoc(start, FamilyOps(c, f, n), Set(c, Member(f, n), false));
        Write(c, Member(f, n), false);
      }
    }

    method WriteDevs(ds: seq<(int, int)>)
      modifies this
      ensures lines == Run(old(lines), DevOps(ds))
    {
      hide Apply, Run;
      ghost var start := lines;
      RunNone(start);
      for n := 0 to |ds|
        invariant lines == Run(start, DevOps(ds[..n]))
      {
        assert ds[..n + 1][..n] == ds[..n];
        if ds[n].0 != -1 && ds[n].1 != -1 {
          RunSnoc(start, DevOps(ds[..n]), PutDev(ds[n].0, ds[n].1));
          AddCfgoptDevid(ds[n].0, ds[n].1);
        } else {
          assert DevOps(ds[..n]) + [] == DevOps(ds[..n]);
        }
      }
      assert ds[..|ds|] == ds;
    }

    method WriteFlags(c: Cfg<real>)
      requires c.Shaped()
      modifies this
      ensures lines == Run(old(lines), FlagOps(c))
    {
      hide Apply, Set;
      Write(c, Repeat, false);
      Write(c, Hold, true);
      Write(c, InvTrans, false);
      Write(c, InvRot, false);
      Write(c, SwapYZ, false);
      RunFive(old(lines), FlagOps(c));
    }

    method WriteFamilies(c: Cfg<real>)
      requires c.Shaped()
      modifies this
      ensures lines == Run(old(lines), FamiliesOps(c))
    {
      hide Run, FamilyOps;
      ghost var start := lines;
      ghost var a, b, h := FamilyOps(c, Axes, 64), FamilyOps(c, Buttons, 64), FamilyOps(c, Holds, 64);
      WriteFamily(c, Axes);
      WriteFamily(c, Buttons);
      WriteFamily(c, Holds);
      WriteFamily(c, Actions);
      WriteFamily(c, Keyboard);
      RunConcat(start, a, b);
      RunConcat(start, a + b, h);
      RunConcat(start, a + b + h, FamilyOps(c, Actions, 64));
      RunConcat(start, a + b + h + FamilyOps(c, Actions, 64), FamilyOps(c, Keyboard, 64));
    }

    method WriteDevices(c: Cfg<real>)
      requires c.Shaped()
      modifies this
      ensures lines == Run(old(lines), DeviceOps(c))
    {
      hide Apply, Set, Run, DevOps;
      ghost var start := lines;
      ghost var three := [Set(c, Led, true), Set(c, Grab, true), Set(c, Serial, false)];
      Write(c, Led, true);
      Write(c, Grab, true);
      Write(c, Serial, false);
      RunThree(start, three);
      WriteDevs(c.devid);
      RunConcat(start, three, DevOps(c.devid));
      Write(c, SockPath, false);
      RunSnoc(start, three + DevOps(c.devid), Set(c, SockPath, false));
    }

    /** write_cfg: edit the table for configuration c, and write the file. */
    method WriteCfg(c: Cfg<real>) returns (file: string)
      requires c.Shaped()
      modifies this
      ensures lines == Save(old(lines), c)
      ensures file == Text(lines)
    {
      hide Apply, Set, Run, TriOps, DeadOps, FlagOps, FamiliesOps, DeviceOps;
      ghost var start := lines;
      Write(c, Sens, false);
      RunOne(start, Set(c, Sens, false));
      WriteTri(c.sensTrans, false);
      RunConcat(start, [Set(c, Sens, false)], TriOps(c.sensTrans, false));
      WriteTri(c.sensRot, true);
      RunConcat(start, [Set(c, Sens, false)] + TriOps(c.sensTrans, false), TriOps(c.sensRot, true));
      WriteDead(c.dead);
      RunConcat(start, [Set(c, Sens, false)] + TriOps(c.sensTrans, false) + TriOps(c.sensRot, true), DeadOps(c.dead));
      WriteFlags(c);
      RunConcat(start, FirstOps(c), FlagOps(c));
      WriteFamilies(c);
      RunConcat(start, FirstOps(c) + FlagOps(c), FamiliesOps(c));
      WriteDevices(c);
      RunConcat(start, FirstOps(c) + FlagOps(c) + FamiliesOps(c), DeviceOps(c));

      file := "";
      for n := 0 to |lines|
        invariant file == Text(lines[..n]) && lines == Save(start, c)
      {
        assert lines[..n + 1][..n] == lines[..n];
        match lines[n].text {
          case None => assert file + "" == file;
          case Some(t) => file := file + (t + "\n");
        }
      }
      assert lines[..|lines|] == lines;
    }
  }
}
