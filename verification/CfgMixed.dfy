/**
 What a whole save makes of each option of a table that saves and reloads have left.
 */
module CfgMixed {
  import opened Basics
  import opened CText
  import opened Config
  import opened CfgKeys
  import opened CfgTable
  import opened CfgWrite
  import opened CfgRead
  import opened CfgSave
  import opened CfgReload
  import opened CfgForeign
  import opened CfgShape

  // ---- runs of steps -----------------------------------------------------------------------

  lemma {:induction false} RunShape(lines: seq<Line>, ops: seq<Op>, c: Cfg<real>)
    requires Shape(lines) && Printable(c) && AllAgree(ops, c)
    ensures Shape(Run(lines, ops)) && Devs(Run(lines, ops)) == DevsRun(Devs(lines), ops)
  {
    hide Shape, Apply, Agrees, Devs, Printable;
    if ops != [] {
      var pre, op := ops[..|ops| - 1], ops[|ops| - 1];
      RunShape(lines, pre, c);
      StepShape(op, Run(lines, pre), c);
    }
  }

  lemma NotRefusedLine(l: Line, k: Key)
    requires Formed(l) && Settable(k) && !Refusable(k)
    ensures !RefusedLine(l, k)
  {
    hide Title, Spells, TidyLine, Unkeyed;
  }

  lemma NeverRefused(lines: seq<Line>, k: Key)
    requires Shape(lines) && Settable(k) && !Refusable(k)
    ensures !HasRefused(lines, k)
  {
    hide Formed, RefusedLine, Order, Devs, Settable;
    forall i | 0 <= i < |lines| ensures !RefusedLine(lines[i], k) { NotRefusedLine(lines[i], k); }
  }

  lemma CoversSnoc(pre: seq<Op>, op: Op, k: Key)
    ensures Covers(pre + [op], k) <==> Covers(pre, k) || Touches(op, k)
  {
    CoversConcat(pre, [op]);
    if Touches(op, k) { CoversBy([op], 0, k); }
  }

  lemma CoversNothing(k: Key)
    ensures !Covers([], k)
  {
  }

  // the fate of an option is settled by the first step that decides it
  lemma {:induction false} RunFate(lines: seq<Line>, ops: seq<Op>, c: Cfg<real>, k: Key)
    requires Shape(lines) && Printable(c) && AllAgree(ops, c) && Settable(k) && !Refusable(k)
    ensures Slot(Run(lines, ops), k) == if Covers(ops, k) then Fate(Slot(lines, k), false, c, k) else Slot(lines, k)
  {
    hide Shape, Apply, Agrees, Printable, Wanted, OwnOnly, LineOf, Covers, Slot, Touches, Settable, Refusable;
    if ops != [] {
      var pre, op := ops[..|ops| - 1], ops[|ops| - 1];
      assert ops == pre + [op];
      RunFate(lines, pre, c, k);
      RunShape(lines, pre, c);
      NeverRefused(Run(lines, pre), k);
      StepShape(op, Run(lines, pre), c);
      CoversSnoc(pre, op, k);
    } else {
      CoversNothing(k);
    }
  }

  // how many steps decide option k
  function Count(ops: seq<Op>, k: Key): nat {
    if ops == [] then 0 else Count(ops[..|ops| - 1], k) + if Touches(ops[|ops| - 1], k) then 1 else 0
  }

  lemma {:induction false} CountConcat(a: seq<Op>, b: seq<Op>, k: Key)
    ensures Count(a + b, k) == Count(a, k) + Count(b, k)
  {
    hide Touches;
    if b == [] {
      assert a + b == a;
    } else {
      assert (a + b)[..|a + b| - 1] == a + b[..|b| - 1];
      CountConcat(a, b[..|b| - 1], k);
    }
  }

  /** A step for an option that no other step touches meets the refused lines of the start. */
  lemma {:induction false} RunOnce(lines: seq<Line>, ops: seq<Op>, c: Cfg<real>, k: Key)
    requires Shape(lines) && Printable(c) && AllAgree(ops, c) && NoRepeat(ops) && Settable(k) && Count(ops, k) <= 1
    ensures Slot(Run(lines, ops), k) ==
              if Count(ops, k) == 0 then Slot(lines, k) else Fate(Slot(lines, k), HasRefused(lines, k), c, k)
    ensures Count(ops, k) == 0 ==> (HasRefused(Run(lines, ops), k) <==> HasRefused(lines, k))
  {
    hide Shape, Apply, Agrees, Printable, Fate, Slot, HasRefused;
    if ops != [] {
      var pre, op := ops[..|ops| - 1], ops[|ops| - 1];
      RunOnce(lines, pre, c, k);
      RunShape(lines, pre, c);
      StepShape(op, Run(lines, pre), c);
    }
  }

  // ---- options that can be refused are touched once -------------------------------------------

  ghost predicate NoRefusable(ops: seq<Op>) { forall op :: op in ops ==> op.PutDev? || !Refusable(op.key) }

  lemma {:induction false} CountNone(ops: seq<Op>, k: Key)
    requires NoRefusable(ops) && Refusable(k)
    ensures Count(ops, k) == 0
  {
    if ops != [] { CountNone(ops[..|ops| - 1], k); }
  }

  lemma CountDevs(c: Cfg<real>, ds: seq<(int, int)>, k: Key)
    requires c.Shaped() && Refusable(k)
    ensures Count(DevOps(ds), k) == 0
  {
    hide Refusable;
    DevOpsAgree(c, ds);
    CountNone(DevOps(ds), k);
  }

  // k is one of the first n options of the family
  predicate OfFamily(k: Key, f: Family, n: nat) {
    match f
    case Axes => k.AxisMap? && 0 <= k.i < n
    case Buttons => k.BnMap? && 0 <= k.i < n
    case Holds => k.BnHold? && 0 <= k.i < n
    case Actions => k.BnAct? && 0 <= k.i < n
    case Keyboard => k.KbMap? && 0 <= k.i < n
  }

  lemma OfFamilyNext(k: Key, f: Family, n: nat)
    requires n > 0
    ensures OfFamily(k, f, n) <==> OfFamily(k, f, n - 1) || k == Member(f, n - 1)
    ensures !(OfFamily(k, f, n - 1) && k == Member(f, n - 1))
  {
  }

  lemma {:induction false} CountFamily(c: Cfg<real>, f: Family, n: nat, k: Key)
    requires c.Shaped() && n <= 64
    ensures Count(FamilyOps(c, f, n), k) == if OfFamily(k, f, n) then 1 else 0
  {
    hide Set, Member, OfFamily, Count;
    if n == 0 {
      NoneOfFamily(k, f);
    } else {
      CountFamily(c, f, n - 1, k);
      OfFamilyNext(k, f, n);
      MemberSaved(f, n - 1);
      CountOne(c, Member(f, n - 1), false, k);
      CountConcat(FamilyOps(c, f, n - 1), [Set(c, Member(f, n - 1), false)], k);
    }
  }

  lemma NoneOfFamily(k: Key, f: Family)
    ensures !OfFamily(k, f, 0) && Count([], k) == 0
  {
  }

  lemma MemberSaved(f: Family, i: nat)
    requires i < 64
    ensures Saved(Member(f, i))
  {
  }

  lemma CountOne(c: Cfg<real>, key: Key, ownOnly: bool, k: Key)
    requires c.Shaped() && Saved(key)
    ensures Count([Set(c, key, ownOnly)], k) == if k == key then 1 else 0
  {
    hide Set;
    SetKey(c, key, ownOnly);
    assert [Set(c, key, ownOnly)][..0] == [];
  }

  lemma CountFlags(c: Cfg<real>, k: Key)
    requires c.Shaped() && Refusable(k)
    ensures Count([Set(c, Hold, true), Set(c, InvTrans, false), Set(c, InvRot, false), Set(c, SwapYZ, false)], k) ==
              if k == Hold then 1 else 0
  {
    hide Set, Count;
    var a, b, x, d := [Set(c, Hold, true)], [Set(c, InvTrans, false)], [Set(c, InvRot, false)], [Set(c, SwapYZ, false)];
    CountOne(c, Hold, true, k);
    CountOne(c, InvTrans, false, k);
    CountOne(c, InvRot, false, k);
    CountOne(c, SwapYZ, false, k);
    CountConcat(a, b, k);
    CountConcat(a + b, x, k);
    CountConcat(a + b + x, d, k);
    assert a + b + x + d == [Set(c, Hold, true), Set(c, InvTrans, false), Set(c, InvRot, false), Set(c, SwapYZ, false)];
  }

  lemma CountFamilies(c: Cfg<real>, k: Key)
    requires c.Shaped() && Refusable(k) && Saved(k)
    ensures Count(FamiliesOps(c), k) == if k.AxisMap? || k.BnMap? || k.BnHold? || k.KbMap? then 1 else 0
  {
    hide Set, Count, FamilyOps;
    var a, b, h, t, y := FamilyOps(c, Axes, 64), FamilyOps(c, Buttons, 64), FamilyOps(c, Holds, 64),
                         FamilyOps(c, Actions, 64), FamilyOps(c, Keyboard, 64);
    CountFamily(c, Axes, 64, k);
    CountFamily(c, Buttons, 64, k);
    CountFamily(c, Holds, 64, k);
    CountFamily(c, Actions, 64, k);
    CountFamily(c, Keyboard, 64, k);
    CountConcat(a, b, k);
    CountConcat(a + b, h, k);
    CountConcat(a + b + h, t, k);
    CountConcat(a + b + h + t, y, k);
  }

  lemma CountDevice(c: Cfg<real>, k: Key)
    requires c.Shaped() && Refusable(k)
    ensures Count(DeviceOps(c), k) == if k == Serial || k == SockPath then 1 else 0
  {
    hide Set, Count, DevOps;
    var a, b, s, z := [Set(c, Led, true)], [Set(c, Grab, true)], [Set(c, Serial, false)], [Set(c, SockPath, false)];
    CountOne(c, Led, true, k);
    CountOne(c, Grab, true, k);
    CountOne(c, Serial, false, k);
    CountOne(c, SockPath, false, k);
    CountDevs(c, c.devid, k);
    CountConcat(a, b, k);
    CountConcat(a + b, s, k);
    CountConcat(a + b + s, DevOps(c.devid), k);
    CountConcat(a + b + s + DevOps(c.devid), z, k);
    assert DeviceOps(c) == a + b + s + DevOps(c.devid) + z;
  }

  lemma CountLast(c: Cfg<real>, k: Key)
    requires c.Shaped() && Refusable(k) && Saved(k)
    ensures Count(LastOps(c), k) == 1
  {
    hide Set, Count, FamiliesOps, DeviceOps;
    var f := [Set(c, Hold, true), Set(c, InvTrans, false), Set(c, InvRot, false), Set(c, SwapYZ, false)];
    CountFlags(c, k);
    CountFamilies(c, k);
    CountDevice(c, k);
    CountConcat(f, FamiliesOps(c), k);
    CountConcat(f + FamiliesOps(c), DeviceOps(c), k);
  }
  // ---- the repeat-interval step -----------------------------------------------------------------

  lemma ListNoRefusable(ops: seq<Op>)
    requires forall op :: op in ops ==> op.Put? || op.Del?
    requires forall op :: op in ops ==> !Refusable(op.key)
    ensures NoRefusable(ops)
  {
  }

  lemma NoRefusableConcat(a: seq<Op>, b: seq<Op>)
    requires NoRefusable(a) && NoRefusable(b)
    ensures NoRefusable(a + b)
  {
    hide Refusable;
  }

  lemma TriNoRefusable(v: seq<real>, rot: bool)
    requires |v| == 3
    ensures NoRefusable(TriOps(v, rot))
  {
    hide Float3, NoRefusable;
    if All3(v) {
      ListNoRefusable(TriOps(v, rot));
    } else {
      ListNoRefusable(AxisOps(v, rot, 0));
      ListNoRefusable(AxisOps(v, rot, 1));
      ListNoRefusable(AxisOps(v, rot, 2));
      NoRefusableConcat(AxisOps(v, rot, 0), AxisOps(v, rot, 1));
      NoRefusableConcat(AxisOps(v, rot, 0) + AxisOps(v, rot, 1), AxisOps(v, rot, 2));
    }
  }

  lemma {:induction false} DeadEachNoRefusable(d: seq<int>, n: nat)
    requires n <= |d|
    ensures NoRefusable(DeadEach(d, n))
  {
    hide Dec, DefaultDeadAt;
    if n > 0 { DeadEachNoRefusable(d, n - 1); }
  }

  lemma {:induction false} RemoveDeadNoRefusable(n: nat)
    ensures NoRefusable(RemoveDeadN(n))
  {
    if n > 0 { RemoveDeadNoRefusable(n - 1); }
  }

  lemma DeadNoRefusable(d: seq<int>)
    requires |d| == MAX_AXES
    ensures NoRefusable(DeadOps(d))
  {
    hide DeadEach, RemoveDeadN, Uniform, Dec;
    DeadEachNoRefusable(d, MAX_AXES);
    RemoveDeadNoRefusable(MAX_AXES);
  }

  lemma FirstNoRefusable(c: Cfg<real>)
    requires c.Shaped()
    ensures NoRefusable(FirstOps(c))
  {
    hide Set, TriOps, DeadOps, NoRefusable;
    var s, t, r := [Set(c, Sens, false)], TriOps(c.sensTrans, false), TriOps(c.sensRot, true);
    SetKey(c, Sens, false);
    ListNoRefusable(s);
    TriNoRefusable(c.sensTrans, false);
    TriNoRefusable(c.sensRot, true);
    DeadNoRefusable(c.dead);
    NoRefusableConcat(s, t);
    NoRefusableConcat(s + t, r);
    NoRefusableConcat(s + t + r, DeadOps(c.dead));
  }

  // an untagged or repeat-interval line reacts to no step for an option that is never refused
  lemma ZeroImmune(op: Op, l: Line)
    requires Formed(l) && Tagged(l, Repeat) && (op.PutDev? || (Settable(op.key) && !Refusable(op.key)))
    ensures Immune(op, l)
  {
    hide KeyText, Spells, Title, Refuses;
    if op.PutDev? { DevTagged(l); }
    if op.Del? {
      NamedIs(l, op.key);
    }
  }

  /** The lines tagged 0 are the same before and after the steps that precede repeat-interval. */
  lemma ZeroLines(lines: seq<Line>, c: Cfg<real>, i: nat)
    requires Shape(lines) && c.Shaped()
    ensures var first := Run(lines, FirstOps(c));
            && |lines| <= |first|
            && (i < |first| && Tagged(first[i], Repeat) ==> i < |lines| && Tagged(lines[i], Repeat))
            && (i < |lines| && Tagged(lines[i], Repeat) ==> first[i] == lines[i])
  {
    hide FirstOps, Run, Tagged, Formed, Immune;
    var ops := FirstOps(c);
    FirstNoRepeat(c);
    FirstNoRefusable(c);
    RunGrows(lines, ops);
    if i < |Run(lines, ops)| && Tagged(Run(lines, ops)[i], Repeat) { RunNoNew(lines, ops, i); }
    if i < |lines| && Tagged(lines[i], Repeat) {
      forall op | op in ops ensures Immune(op, lines[i]) { ZeroImmune(op, lines[i]); }
      RunImmune(lines, ops, i);
    }
  }

  lemma FirstZero(lines: seq<Line>, c: Cfg<real>, v: string)
    requires Shape(lines) && c.Shaped()
    ensures Find(Put(Repeat, v), Run(lines, FirstOps(c))) == FirstRepeat(lines)
  {
    hide Run, FirstOps, Shape;
    var first := Run(lines, FirstOps(c));
    FindIsFirst(Put(Repeat, ""), lines);
    FindIsFirst(Put(Repeat, v), first);
    forall i: nat
      ensures (i < |first| && Tagged(first[i], Repeat) ==> i < |lines| && Tagged(lines[i], Repeat))
      ensures |lines| <= |first| && (i < |lines| && Tagged(lines[i], Repeat) ==> first[i] == lines[i])
    {
      ZeroLines(lines, c, i);
    }
    if FirstRepeat(lines).Some? { ZeroLines(lines, c, FirstRepeat(lines).value); }
    if Find(Put(Repeat, v), first).Some? { ZeroLines(lines, c, Find(Put(Repeat, v), first).value); }
  }

  /**
   Over the tables of this module the user's lines survive exactly if repeat is off or the
   first line tagged 0 of the table itself is none of them.
   */
  lemma RepeatSafeIs(lines: seq<Line>, c: Cfg<real>)
    requires Shape(lines) && c.Shaped()
    ensures RepeatSafe(lines, c) <==>
              || c.repeat == -1
              || match FirstRepeat(lines)
                 case None => true
                 case Some(j) => j < |lines| && !Foreign(lines[j])
  {
    hide Run, FirstOps, Shape, Foreign;
    FirstZero(lines, c, "");
    FindIsFirst(Put(Repeat, ""), lines);
    if FirstRepeat(lines).Some? { ZeroLines(lines, c, FirstRepeat(lines).value); }
  }

  /**
   A refused line of option k is there when the step for k comes: writing repeat-interval takes the
   first line tagged 0.
   */
  ghost predicate RefusedLeft(lines: seq<Line>, c: Cfg<real>, k: Key) {
    RefusedBut(lines, k, if c.repeat == -1 then None else FirstRepeat(lines))
  }

  // a refused line of option k elsewhere than at j
  ghost predicate RefusedBut(lines: seq<Line>, k: Key, j: Option<nat>) {
    exists i :: 0 <= i < |lines| && RefusedLine(lines[i], k) && Some(i) != j
  }

  lemma RefusedAny(lines: seq<Line>, k: Key)
    ensures HasRefused(lines, k) <==> RefusedBut(lines, k, None)
    ensures forall j :: RefusedBut(lines, k, j) ==> HasRefused(lines, k)
  {
    hide RefusedLine;
    if HasRefused(lines, k) { var i :| 0 <= i < |lines| && RefusedLine(lines[i], k); assert Some(i) != None; }
  }

  function RepeatStep(lines: seq<Line>, c: Cfg<real>): seq<Line>
    requires c.Shaped()
  {
    Apply(Set(c, Repeat, false), Run(lines, FirstOps(c)))
  }

  lemma RepeatOp(c: Cfg<real>)
    requires c.Shaped()
    ensures Agrees(Set(c, Repeat, false), c)
    ensures Set(c, Repeat, false) == if c.repeat == -1 then Del(Repeat, false) else Put(Repeat, Dec(c.repeat) + "\n")
  {
    hide Dec;
    SetAgrees(c, Repeat, false);
  }

  lemma FirstAgree(c: Cfg<real>)
    requires c.Shaped()
    ensures AllAgree(FirstOps(c), c) && AllAgree(LastOps(c), c)
  {
    hide Agrees, Set, FirstOps, LastOps, Script, Run;
    ScriptAgrees(c);
    ScriptSplit([], c);
    forall op | op in FirstOps(c) || op in LastOps(c) ensures Agrees(op, c) { assert op in Script(c); }
  }

  lemma SameRefused(lines: seq<Line>, c: Cfg<real>, k: Key, j: Option<nat>)
    requires Shape(lines) && c.Shaped()
    ensures RefusedBut(Run(lines, FirstOps(c)), k, j) <==> RefusedBut(lines, k, j)
  {
    hide Run, FirstOps, Shape, KeyAt;
    var first := Run(lines, FirstOps(c));
    if RefusedBut(first, k, j) {
      var i :| 0 <= i < |first| && RefusedLine(first[i], k) && Some(i) != j;
      ZeroLines(lines, c, i);
      assert RefusedLine(lines[i], k);
    }
    if RefusedBut(lines, k, j) {
      var i :| 0 <= i < |lines| && RefusedLine(lines[i], k) && Some(i) != j;
      ZeroLines(lines, c, i);
      assert RefusedLine(first[i], k);
    }
  }

  lemma RepeatShape(lines: seq<Line>, c: Cfg<real>)
    requires Shape(lines) && Printable(c)
    ensures c.Shaped() && Shape(Run(lines, FirstOps(c))) && Shape(RepeatStep(lines, c))
    ensures forall k :: Settable(k) ==> Slot(RepeatStep(lines, c), k) == Slot(Run(lines, FirstOps(c)), k)
    ensures c.repeat == -1 ==> forall k :: Settable(k) ==>
              (HasRefused(RepeatStep(lines, c), k) <==> HasRefused(Run(lines, FirstOps(c)), k))
  {
    hide Run, FirstOps, Shape, Slot, Agrees, Dec, Apply, Wanted, HasRefused, Printable, Set;
    PrintableShaped(c);
    RepeatOp(c);
    FirstAgree(c);
    RunShape(lines, FirstOps(c), c);
    StepShape(Set(c, Repeat, false), Run(lines, FirstOps(c)), c);
  }

  lemma RepeatRefused(lines: seq<Line>, c: Cfg<real>, k: Key)
    requires Shape(lines) && Printable(c) && Settable(k)
    ensures Shape(RepeatStep(lines, c)) && Slot(RepeatStep(lines, c), k) == Slot(Run(lines, FirstOps(c)), k)
    ensures HasRefused(RepeatStep(lines, c), k) <==> RefusedLeft(lines, c, k)
  {
    hide Run, FirstOps, Shape, Slot, Dec, Apply, RefusedBut, HasRefused, Printable, Set, FirstRepeat;
    RepeatShape(lines, c);
    RepeatOp(c);
    var first := Run(lines, FirstOps(c));
    if c.repeat == -1 {
      RefusedAny(first, k);
      SameRefused(lines, c, k, None);
    } else {
      FirstZero(lines, c, Set(c, Repeat, false).val);
      SameRefused(lines, c, k, FirstRepeat(lines));
      PutRefused(Set(c, Repeat, false), first, k);
    }
  }

  // writing repeat-interval takes one line tagged 0
  lemma PutRefused(op: Op, lines: seq<Line>, k: Key)
    requires op.Put? && op.key == Repeat && k != Repeat
    ensures HasRefused(Apply(op, lines), k) <==> RefusedBut(lines, k, Find(op, lines))
  {
    hide KeyText, LineOf, Title, RmName, Clip;
    FindIsFirst(op, lines);
    var after := Apply(op, lines);
    PutTitle(op);
    if HasRefused(after, k) {
      var i :| 0 <= i < |after| && RefusedLine(after[i], k);
      assert i < |lines| && Some(i) != Find(op, lines) && RefusedLine(lines[i], k);
    }
    if RefusedBut(lines, k, Find(op, lines)) {
      var i :| 0 <= i < |lines| && RefusedLine(lines[i], k) && Some(i) != Find(op, lines);
      assert RefusedLine(after[i], k);
    }
  }

  lemma PutTitle(op: Op)
    requires op.Put? && Saved(op.key)
    ensures Title(Clip(LineOf(op.key, op.val))) == Some(op.key)
  {
    hide KeyText, LineOf, Clip, Title;
    NamedLine(op.key, op.val);
    TitleOf(Clip(LineOf(op.key, op.val)), op.key);
  }

  // ---- the whole save --------------------------------------------------------------------------------

  /** What a save makes of each option. */
  lemma SaveSlot(lines: seq<Line>, c: Cfg<real>, k: Key)
    requires Shape(lines) && Printable(c) && Settable(k)
    ensures Slot(Save(lines, c), k) ==
              if Decided(c, k) then Fate(Slot(lines, k), RefusedLeft(lines, c, k), c, k) else Slot(lines, k)
  {
    hide Run, FirstOps, LastOps, Shape, Slot, Agrees, Set, Apply, RefusedLine, Fate, Script, Decided, Printable,
      HasRefused, RefusedLeft;
    PrintableShaped(c);
    RepeatRefused(lines, c, k);
    if Refusable(k) {
      assert Decided(c, k) by { RefusableDecided(c, k); }
      ScriptSplit(lines, c);
      FirstAgree(c);
      FirstNoRepeat(c);
      LastNoRepeat(c);
      FirstNoRefusable(c);
      CountNone(FirstOps(c), k);
      CountLast(c, k);
      RunOnce(lines, FirstOps(c), c, k);
      RunOnce(RepeatStep(lines, c), LastOps(c), c, k);
    } else {
      NeverRefused(RepeatStep(lines, c), k);
      ScriptAgrees(c);
      RunFate(lines, Script(c), c, k);
    }
  }

  lemma RefusableDecided(c: Cfg<real>, k: Key)
    requires Refusable(k)
    ensures Decided(c, k)
  {
  }

  lemma SaveShape(lines: seq<Line>, c: Cfg<real>)
    requires Shape(lines) && Printable(c)
    ensures Shape(Save(lines, c)) && Devs(Save(lines, c)) == AddAll(Devs(lines), c.devid)
  {
    hide Run, Shape, Script, Printable, Devs, Agrees;
    PrintableShaped(c);
    ScriptAgrees(c);
    RunShape(lines, Script(c), c);
    ScriptDevs(Devs(lines), c);
  }
}
