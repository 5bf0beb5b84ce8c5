/**
 What a save does to a table built by saves: which configuration the table
 stands for afterwards.
 */
module CfgSave {
  import opened Basics
  import opened CText
  import opened Config
  import opened CfgKeys
  import opened CfgTable
  import opened CfgWrite

  // options with a single line; device-id lines are a list of their own
  predicate Single(k: Key) { Saved(k) && k != DevId }

  function WantedText(c: Cfg<real>, k: Key): Option<string>
    requires c.Shaped() && Single(k)
  {
    match Wanted(c, k)
    case None => None
    case Some(v) => Some(Clip(LineOf(k, v)))
  }

  // ---- the steps agree with what is wanted -----------------------------------------

  // options removed only from lines the daemon added itself
  predicate OwnOnly(c: Cfg<real>, k: Key)
    requires c.Shaped()
  {
    match k
    case Hold => true
    case Led => true
    case Grab => true
    case SensTrans => All3(c.sensTrans)
    case SensT(_) => !All3(c.sensTrans)
    case SensRot => All3(c.sensRot)
    case SensR(_) => !All3(c.sensRot)
    case DeadZone => Uniform(c.dead)
    case DeadZoneN(_) => !Uniform(c.dead)
    case _ => false
  }

  predicate Agrees(op: Op, c: Cfg<real>)
    requires c.Shaped()
  {
    op.PutDev? ||
    (Single(op.key) && Result(op) == WantedText(c, op.key) && (op.Del? ==> op.ownOnly == OwnOnly(c, op.key)))
  }

  ghost predicate AllAgree(ops: seq<Op>, c: Cfg<real>)
    requires c.Shaped()
  {
    forall op :: op in ops ==> Agrees(op, c)
  }

  ghost predicate Covers(ops: seq<Op>, k: Key) { exists op :: op in ops && Touches(op, k) }

  lemma SetAgrees(c: Cfg<real>, k: Key, ownOnly: bool)
    requires c.Shaped() && Single(k) && ownOnly == OwnOnly(c, k)
    ensures Agrees(Set(c, k, ownOnly), c) && Touches(Set(c, k, ownOnly), k)
  {
    hide Wanted, LineOf, Clip;
  }

  lemma PutAgrees(c: Cfg<real>, k: Key, v: string)
    requires c.Shaped() && Single(k) && Wanted(c, k) == Some(v)
    ensures Agrees(Put(k, v), c)
  {
    hide Wanted, LineOf, Clip;
  }

  lemma DelAgrees(c: Cfg<real>, k: Key, ownOnly: bool)
    requires c.Shaped() && Single(k) && Wanted(c, k) == None && ownOnly == OwnOnly(c, k)
    ensures Agrees(Del(k, ownOnly), c)
  {
    hide Wanted;
  }

  lemma CoversBy(ops: seq<Op>, i: nat, k: Key)
    requires i < |ops| && Touches(ops[i], k)
    ensures Covers(ops, k)
  {
  }

  lemma CoversConcat(a: seq<Op>, b: seq<Op>)
    ensures forall k :: Covers(a + b, k) <==> Covers(a, k) || Covers(b, k)
  {
    hide Touches;
    forall k ensures Covers(a + b, k) <==> Covers(a, k) || Covers(b, k) {
      if Covers(a + b, k) {
        var o :| o in a + b && Touches(o, k);
        assert o in a || o in b;
      }
      if Covers(a, k) { var o :| o in a && Touches(o, k); assert o in a + b; }
      if Covers(b, k) { var o :| o in b && Touches(o, k); assert o in a + b; }
    }
  }

  lemma AgreeConcat(a: seq<Op>, b: seq<Op>, c: Cfg<real>)
    requires c.Shaped() && AllAgree(a, c) && AllAgree(b, c)
    ensures AllAgree(a + b, c)
  {
    hide Agrees;
  }

  lemma AgreeNone(c: Cfg<real>)
    requires c.Shaped()
    ensures AllAgree([], c)
  {
  }

  lemma AgreeOne(op: Op, c: Cfg<real>)
    requires c.Shaped() && Agrees(op, c)
    ensures AllAgree([op], c)
  {
    hide Agrees;
  }

  function Tri(c: Cfg<real>, rot: bool): (v: seq<real>)
    requires c.Shaped()
    ensures |v| == 3
  {
    if rot then c.sensRot else c.sensTrans
  }

  lemma AxisOpsAgree(c: Cfg<real>, rot: bool, a: nat)
    requires c.Shaped() && !All3(Tri(c, rot)) && a < 3
    ensures AllAgree(AxisOps(Tri(c, rot), rot, a), c)
    ensures Covers(AxisOps(Tri(c, rot), rot, a), Axis(rot, a))
    ensures Tri(c, rot)[a] != 1.0 ==> Covers(AxisOps(Tri(c, rot), rot, a), Whole(rot))
  {
    hide Float3, Agrees;
    var ops := AxisOps(Tri(c, rot), rot, a);
    CoversBy(ops, 0, Axis(rot, a));
    if Tri(c, rot)[a] != 1.0 {
      PutAgrees(c, Axis(rot, a), Float3(Tri(c, rot)[a]));
      DelAgrees(c, Whole(rot), false);
      CoversBy(ops, 1, Whole(rot));
    } else {
      DelAgrees(c, Axis(rot, a), true);
    }
  }

  lemma TriSame(c: Cfg<real>, rot: bool)
    requires c.Shaped() && All3(Tri(c, rot))
    ensures var ops := TriOps(Tri(c, rot), rot);
            && AllAgree(ops, c) && Covers(ops, Whole(rot))
            && forall a :: 0 <= a < 3 ==> Covers(ops, Axis(rot, a))
  {
    hide Float3, Agrees, Covers, Touches;
    var v := Tri(c, rot);
    var ops := TriOps(v, rot);
    TriSameTouches(v, rot);
    forall a: nat | a < 3 ensures Agrees(ops[a], c) && Covers(ops, Axis(rot, a)) {
      DelAgrees(c, Axis(rot, a), false);
      CoversBy(ops, a, Axis(rot, a));
    }
    CoversBy(ops, 3, Whole(rot));
    if v[0] != 1.0 { PutAgrees(c, Whole(rot), Float3(v[0])); } else { DelAgrees(c, Whole(rot), true); }
    assert ops == [ops[0], ops[1], ops[2], ops[3]];
  }

  lemma TriSameTouches(v: seq<real>, rot: bool)
    requires |v| == 3 && All3(v)
    ensures var ops := TriOps(v, rot);
            |ops| == 4 && Touches(ops[3], Whole(rot)) && forall a: nat :: a < 3 ==> Touches(ops[a], Axis(rot, a))
  {
    hide Float3;
  }

  lemma TriAgree(c: Cfg<real>, rot: bool)
    requires c.Shaped()
    ensures var ops := TriOps(Tri(c, rot), rot);
            && AllAgree(ops, c) && Covers(ops, Whole(rot))
            && forall a :: 0 <= a < 3 ==> Covers(ops, Axis(rot, a))
  {
    hide Float3, Agrees, AxisOps, Covers, AllAgree;
    var v := Tri(c, rot);
    if All3(v) {
      TriSame(c, rot);
    } else {
      var x, y, z := AxisOps(v, rot, 0), AxisOps(v, rot, 1), AxisOps(v, rot, 2);
      AxisOpsAgree(c, rot, 0);
      AxisOpsAgree(c, rot, 1);
      AxisOpsAgree(c, rot, 2);
      AgreeConcat(x, y, c);
      AgreeConcat(x + y, z, c);
      CoversConcat(x, y);
      CoversConcat(x + y, z);
      assert TriOps(v, rot) == x + y + z;
    }
  }

  lemma {:induction false} RemoveDeadAgree(c: Cfg<real>, n: nat)
    requires c.Shaped() && Uniform(c.dead) && n <= MAX_AXES
    ensures AllAgree(RemoveDeadN(n), c)
    ensures forall i :: 0 <= i < n ==> Covers(RemoveDeadN(n), DeadZoneN(i))
  {
    hide Agrees, Uniform, Covers, AllAgree;
    if n == 0 {
      AgreeNone(c);
    } else {
      RemoveDeadAgree(c, n - 1);
      var last := [Del(DeadZoneN(n - 1), false)];
      DelAgrees(c, DeadZoneN(n - 1), false);
      AgreeOne(last[0], c);
      AgreeConcat(RemoveDeadN(n - 1), last, c);
      CoversBy(last, 0, DeadZoneN(n - 1));
      CoversConcat(RemoveDeadN(n - 1), last);
    }
  }

  // the steps for one axis of an uneven dead-zone vector
  lemma DeadAxisAgree(c: Cfg<real>, i: nat)
    requires c.Shaped() && !Uniform(c.dead) && i < MAX_AXES
    ensures var ops := DeadAxisOps(c.dead, i);
            && AllAgree(ops, c) && Covers(ops, DeadZoneN(i))
            && (Covers(ops, DeadZone) <==> c.dead[i] != DefaultDeadAt(i))
  {
    hide Agrees, Uniform, Dec;
    var ops := DeadAxisOps(c.dead, i);
    CoversBy(ops, 0, DeadZoneN(i));
    if c.dead[i] != DefaultDeadAt(i) {
      PutAgrees(c, DeadZoneN(i), Dec(c.dead[i]));
      DelAgrees(c, DeadZone, false);
      CoversBy(ops, 1, DeadZone);
    } else {
      DelAgrees(c, DeadZoneN(i), true);
    }
  }

  lemma {:induction false} DeadEachAgree(c: Cfg<real>, n: nat)
    requires c.Shaped() && !Uniform(c.dead) && n <= MAX_AXES
    ensures AllAgree(DeadEach(c.dead, n), c)
  {
    hide Agrees, Uniform, Covers, AllAgree, DefaultDeadAt, DeadAxisOps;
    if n == 0 {
      NoneAgree(c);
    } else {
      DeadEachAgree(c, n - 1);
      DeadAxisAgree(c, n - 1);
      AgreeConcat(DeadEach(c.dead, n - 1), DeadAxisOps(c.dead, n - 1), c);
    }
  }

  lemma NoneAgree(c: Cfg<real>)
    requires c.Shaped()
    ensures AllAgree([], c) && forall k :: !Covers([], k)
  {
  }

  lemma {:induction false} DeadEachCovers(c: Cfg<real>, n: nat)
    requires c.Shaped() && !Uniform(c.dead) && n <= MAX_AXES
    ensures forall i :: 0 <= i < n ==> Covers(DeadEach(c.dead, n), DeadZoneN(i))
    ensures Covers(DeadEach(c.dead, n), DeadZone) <==> exists i :: 0 <= i < n && c.dead[i] != DefaultDeadAt(i)
  {
    hide Agrees, Uniform, Covers, AllAgree, DefaultDeadAt, DeadAxisOps;
    if n == 0 {
      NoneAgree(c);
    } else {
      DeadEachCovers(c, n - 1);
      DeadAxisAgree(c, n - 1);
      CoversConcat(DeadEach(c.dead, n - 1), DeadAxisOps(c.dead, n - 1));
    }
  }

  lemma {:induction false} FamilyAgree(c: Cfg<real>, f: Family, n: nat)
    requires c.Shaped() && n <= 64
    ensures AllAgree(FamilyOps(c, f, n), c)
    ensures forall i :: 0 <= i < n ==> Covers(FamilyOps(c, f, n), Member(f, i))
  {
    hide Agrees, Set, Covers;
    if n > 0 {
      FamilyAgree(c, f, n - 1);
      var last := [Set(c, Member(f, n - 1), false)];
      SetAgrees(c, Member(f, n - 1), false);
      CoversBy(last, 0, Member(f, n - 1));
      CoversConcat(FamilyOps(c, f, n - 1), last);
    }
  }

  lemma {:induction false} DevOpsAgree(c: Cfg<real>, ds: seq<(int, int)>)
    requires c.Shaped()
    ensures forall op :: op in DevOps(ds) ==> op.PutDev?
  {
    if ds != [] { DevOpsAgree(c, ds[..|ds| - 1]); }
  }

  // ---- lookups after a run -----------------------------------------------------------

  function DevsRun(ds: seq<(nat, nat)>, ops: seq<Op>): seq<(nat, nat)> {
    if ops == [] then ds else DevsAfter(ops[|ops| - 1], DevsRun(ds, ops[..|ops| - 1]))
  }

  lemma {:induction false} RunTidy(lines: seq<Line>, ops: seq<Op>)
    requires Tidy(lines) && forall op :: op in ops ==> Proper(op)
    ensures Tidy(Run(lines, ops))
    ensures Devs(Run(lines, ops)) == DevsRun(Devs(lines), ops)
  {
    hide Tidy, Devs, Apply, Proper, DevsAfter;
    if ops != [] {
      RunTidy(lines, ops[..|ops| - 1]);
      ApplyTidy(ops[|ops| - 1], Run(lines, ops[..|ops| - 1]));
    }
  }

  /** If all steps agree on option k, the table holds what they agree on, or still the old text when no step decides. */
  lemma {:induction false} RunLookup(lines: seq<Line>, ops: seq<Op>, c: Cfg<real>, k: Key)
    requires Tidy(lines) && c.Shaped() && AllAgree(ops, c) && Single(k)
    ensures Lookup(Run(lines, ops), k) == if Covers(ops, k) then WantedText(c, k) else Lookup(lines, k)
  {
    hide Tidy, Devs, Apply, Lookup, WantedText, Result;
    if ops != [] {
      var pre, op := ops[..|ops| - 1], ops[|ops| - 1];
      assert forall o :: o in pre ==> o in ops;
      assert op in ops;
      RunLookup(lines, pre, c, k);
      RunTidy(lines, pre);
      ApplyTidy(op, Run(lines, pre));
      if Covers(ops, k) && !Covers(pre, k) {
        var o :| o in ops && Touches(o, k);
        assert o in pre || o == op;
      }
      if Covers(pre, k) { var o :| o in pre && Touches(o, k); assert o in ops; }
    }
  }

  // ---- the whole script ---------------------------------------------------------------

  predicate AllTwo(d: seq<int>) { |d| == MAX_AXES && Uniform(d) && d[0] == 2 }

  predicate DeadKey(k: Key) { k.DeadZone? || k.DeadZoneN? }

  ghost predicate NoDead(ops: seq<Op>) { forall op :: op in ops ==> op.PutDev? || !DeadKey(op.key) }

  ghost predicate NoDev(ops: seq<Op>) { forall op :: op in ops ==> !op.PutDev? }

  lemma SetKey(c: Cfg<real>, k: Key, ownOnly: bool)
    requires c.Shaped() && Saved(k)
    ensures !Set(c, k, ownOnly).PutDev? && Set(c, k, ownOnly).key == k
  {
    hide Wanted;
  }

  lemma {:induction false} FamilyKeys(c: Cfg<real>, f: Family, n: nat)
    requires c.Shaped() && n <= 64
    ensures NoDead(FamilyOps(c, f, n)) && NoDev(FamilyOps(c, f, n))
  {
    hide Set;
    if n > 0 {
      FamilyKeys(c, f, n - 1);
      SetKey(c, Member(f, n - 1), false);
    }
  }

  lemma {:induction false} DeadEachKeys(d: seq<int>, n: nat)
    requires n <= |d|
    ensures NoDev(DeadEach(d, n))
  {
    hide Dec, DefaultDeadAt;
    if n > 0 { DeadEachKeys(d, n - 1); }
  }

  lemma {:induction false} RemoveDeadKeys(n: nat)
    ensures NoDev(RemoveDeadN(n))
  {
    if n > 0 { RemoveDeadKeys(n - 1); }
  }

  lemma DeadKeys(d: seq<int>)
    requires |d| == MAX_AXES
    ensures NoDev(DeadOps(d))
  {
    hide DeadEach, RemoveDeadN, Uniform, Dec;
    DeadEachKeys(d, MAX_AXES);
    RemoveDeadKeys(MAX_AXES);
  }

  lemma TriKeys(v: seq<real>, rot: bool)
    requires |v| == 3
    ensures NoDead(TriOps(v, rot)) && NoDev(TriOps(v, rot))
  {
    hide Float3, NoDead, NoDev;
    if All3(v) {
      OpsKeys(TriOps(v, rot));
    } else {
      var x, y, z := AxisOps(v, rot, 0), AxisOps(v, rot, 1), AxisOps(v, rot, 2);
      OpsKeys(x);
      OpsKeys(y);
      OpsKeys(z);
      OpsKeys(x + y + z);
    }
  }

  lemma OpsKeys(ops: seq<Op>)
    requires forall op :: op in ops ==>
               !op.PutDev? && (op.key.SensT? || op.key.SensR? || op.key.SensTrans? || op.key.SensRot?)
    ensures NoDead(ops) && NoDev(ops)
  {
  }

  lemma ListAgree(c: Cfg<real>, ops: seq<Op>, ks: seq<Key>)
    requires c.Shaped() && |ops| == |ks|
    requires forall i :: 0 <= i < |ks| ==>
               Single(ks[i]) && !DeadKey(ks[i]) && ops[i] == Set(c, ks[i], OwnOnly(c, ks[i]))
    ensures AllAgree(ops, c) && NoDead(ops) && NoDev(ops)
    ensures forall k :: k in ks ==> Covers(ops, k)
  {
    hide Set, Agrees;
    forall i | 0 <= i < |ks|
      ensures Agrees(ops[i], c) && Touches(ops[i], ks[i]) && !ops[i].PutDev? && !DeadKey(ops[i].key)
    {
      SetAgrees(c, ks[i], OwnOnly(c, ks[i]));
      SetKey(c, ks[i], OwnOnly(c, ks[i]));
    }
    forall k | k in ks ensures Covers(ops, k) {
      var i :| 0 <= i < |ks| && ks[i] == k;
      CoversBy(ops, i, k);
    }
  }

  lemma DeadAgree(c: Cfg<real>)
    requires c.Shaped()
    ensures AllAgree(DeadOps(c.dead), c)
    ensures Covers(DeadOps(c.dead), DeadZone) <==> c.dead != DefaultDead()
    ensures forall i :: 0 <= i < MAX_AXES ==> (Covers(DeadOps(c.dead), DeadZoneN(i)) <==> !AllTwo(c.dead))
  {
    hide Agrees, Dec, DefaultDeadAt, RemoveDeadN, DeadEach;
    var d := c.dead;
    if Uniform(d) {
      assert d != DefaultDead() by { DefaultUneven(); }
      if d[0] != 2 {
        var first := [Put(DeadZone, Dec(d[0]))];
        PutAgrees(c, DeadZone, Dec(d[0]));
        CoversBy(first, 0, DeadZone);
        RemoveDeadAgree(c, MAX_AXES);
        AgreeConcat(first, RemoveDeadN(MAX_AXES), c);
        CoversConcat(first, RemoveDeadN(MAX_AXES));
      } else {
        DelAgrees(c, DeadZone, true);
        CoversBy([Del(DeadZone, true)], 0, DeadZone);
      }
    } else {
      DeadEachAgree(c, MAX_AXES);
      DeadEachCovers(c, MAX_AXES);
    }
  }

  lemma DefaultUneven()
    ensures !Uniform(DefaultDead())
  {
    assert DefaultDead()[6] != DefaultDead()[5];
  }

  // the part of the script before the dead zones, and the part after them
  function HeadOps(c: Cfg<real>): seq<Op>
    requires c.Shaped()
  {
    [Set(c, Sens, false)] + TriOps(c.sensTrans, false) + TriOps(c.sensRot, true)
  }

  lemma HeadAgree(c: Cfg<real>)
    requires c.Shaped()
    ensures AllAgree(HeadOps(c), c) && NoDead(HeadOps(c)) && NoDev(HeadOps(c))
    ensures forall k :: Saved(k) && (k.Sens? || k.SensTrans? || k.SensT? || k.SensRot? || k.SensR?) ==>
              Covers(HeadOps(c), k)
  {
    hide Agrees, Set, TriOps, Covers;
    var s, t, r := [Set(c, Sens, false)], TriOps(c.sensTrans, false), TriOps(c.sensRot, true);
    ListAgree(c, s, [Sens]);
    assert Covers(s, Sens) by { assert Sens in [Sens]; }
    TriAgree(c, false);
    TriAgree(c, true);
    TriKeys(c.sensTrans, false);
    TriKeys(c.sensRot, true);
    AgreeConcat(s, t, c);
    AgreeConcat(s + t, r, c);
    CoversConcat(s, t);
    CoversConcat(s + t, r);
    assert forall a :: 0 <= a < 3 ==> Axis(false, a) == SensT(a) && Axis(true, a) == SensR(a);
  }

  lemma FlagAgree(c: Cfg<real>)
    requires c.Shaped()
    ensures AllAgree(FlagOps(c), c) && NoDead(FlagOps(c)) && NoDev(FlagOps(c))
    ensures forall k: Key :: k.Repeat? || k.Hold? || k.InvTrans? || k.InvRot? || k.SwapYZ? ==> Covers(FlagOps(c), k)
  {
    hide Agrees, Set, Covers;
    var ks := [Repeat, Hold, InvTrans, InvRot, SwapYZ];
    ListAgree(c, FlagOps(c), ks);
    assert ks[0] in ks && ks[1] in ks && ks[2] in ks && ks[3] in ks && ks[4] in ks;
  }

  lemma FamiliesAgree(c: Cfg<real>)
    requires c.Shaped()
    ensures AllAgree(FamiliesOps(c), c) && NoDead(FamiliesOps(c)) && NoDev(FamiliesOps(c))
    ensures forall k :: Saved(k) && (k.AxisMap? || k.BnMap? || k.BnHold? || k.BnAct? || k.KbMap?) ==>
              Covers(FamiliesOps(c), k)
  {
    hide Agrees, Set, Covers, FamilyOps, AllAgree;
    var a, b, h, t, y := FamilyOps(c, Axes, 64), FamilyOps(c, Buttons, 64), FamilyOps(c, Holds, 64),
                         FamilyOps(c, Actions, 64), FamilyOps(c, Keyboard, 64);
    FamilyAgree(c, Axes, 64);
    FamilyAgree(c, Buttons, 64);
    FamilyAgree(c, Holds, 64);
    FamilyAgree(c, Actions, 64);
    FamilyAgree(c, Keyboard, 64);
    FamilyKeys(c, Axes, 64);
    FamilyKeys(c, Buttons, 64);
    FamilyKeys(c, Holds, 64);
    FamilyKeys(c, Actions, 64);
    FamilyKeys(c, Keyboard, 64);
    AgreeConcat(a, b, c);
    AgreeConcat(a + b, h, c);
    AgreeConcat(a + b + h, t, c);
    AgreeConcat(a + b + h + t, y, c);
    CoversConcat(a, b);
    CoversConcat(a + b, h);
    CoversConcat(a + b + h, t);
    CoversConcat(a + b + h + t, y);
    forall k | Saved(k) && (k.AxisMap? || k.BnMap? || k.BnHold? || k.BnAct? || k.KbMap?)
      ensures Covers(FamiliesOps(c), k)
    {
      match k
      case AxisMap(i) => assert k == Member(Axes, i);
      case BnMap(i) => assert k == Member(Buttons, i);
      case BnHold(i) => assert k == Member(Holds, i);
      case BnAct(i) => assert k == Member(Actions, i);
      case KbMap(i) => assert k == Member(Keyboard, i);
    }
  }

  lemma AllDevAgree(c: Cfg<real>, ops: seq<Op>)
    requires c.Shaped() && forall op :: op in ops ==> op.PutDev?
    ensures AllAgree(ops, c)
  {
    hide WantedText, Result;
  }

  lemma DeviceAgree(c: Cfg<real>)
    requires c.Shaped()
    ensures AllAgree(DeviceOps(c), c) && NoDead(DeviceOps(c))
    ensures forall k: Key :: k.Led? || k.Grab? || k.Serial? || k.SockPath? ==> Covers(DeviceOps(c), k)
  {
    hide Agrees, Set, Covers, DevOps;
    var a, d := [Set(c, Led, true), Set(c, Grab, true), Set(c, Serial, false)], DevOps(c.devid);
    var z := [Set(c, SockPath, false)];
    var ks := [Led, Grab, Serial];
    ListAgree(c, a, ks);
    assert ks[0] in ks && ks[1] in ks && ks[2] in ks;
    ListAgree(c, z, [SockPath]);
    assert SockPath in [SockPath];
    DevOpsAgree(c, c.devid);
    AllDevAgree(c, d);
    AgreeConcat(a, d, c);
    AgreeConcat(a + d, z, c);
    CoversConcat(a, d);
    CoversConcat(a + d, z);
  }

  predicate Decided(c: Cfg<real>, k: Key) {
    && (k.DeadZone? ==> c.dead != DefaultDead())
    && (k.DeadZoneN? ==> !AllTwo(c.dead))
  }

  lemma NoDeadCovers(ops: seq<Op>)
    requires NoDead(ops)
    ensures forall k :: DeadKey(k) ==> !Covers(ops, k)
  {
  }

  /**
   Every step of the script agrees with what is wanted, and every option is
   decided, except the dead zones: a vector of 64 twos leaves the per-axis lines
   alone, the default vector leaves the common dead-zone line alone.
   */
  lemma ScriptAgrees(c: Cfg<real>)
    requires c.Shaped()
    ensures AllAgree(Script(c), c)
    ensures forall k :: Single(k) ==> (Covers(Script(c), k) <==> Decided(c, k))
  {
    hide Agrees, Covers, AllAgree, Set, TriOps, DeadOps, FlagOps, FamiliesOps, DeviceOps, NoDead, AllTwo, DefaultDead;
    var h, d, f, m, v := HeadOps(c), DeadOps(c.dead), FlagOps(c), FamiliesOps(c), DeviceOps(c);
    HeadAgree(c);
    DeadAgree(c);
    FlagAgree(c);
    FamiliesAgree(c);
    DeviceAgree(c);
    NoDeadCovers(h);
    NoDeadCovers(f);
    NoDeadCovers(m);
    NoDeadCovers(v);
    AgreeConcat(h, d, c);
    AgreeConcat(h + d, f, c);
    AgreeConcat(h + d + f, m, c);
    AgreeConcat(h + d + f + m, v, c);
    CoversConcat(h, d);
    CoversConcat(h + d, f);
    CoversConcat(h + d + f, m);
    CoversConcat(h + d + f + m, v);
    assert Script(c) == h + d + f + m + v;
  }

  // ---- device ids ---------------------------------------------------------------------

  /** The ids in the table once those of `devid` have been added. */
  function AddAll(ds: seq<(nat, nat)>, devid: seq<(int, int)>): seq<(nat, nat)> {
    if devid == [] then ds
    else
      var d := devid[|devid| - 1];
      var before := AddAll(ds, devid[..|devid| - 1]);
      if d.0 != -1 && d.1 != -1 then AddDev(before, (ToUint(d.0), ToUint(d.1))) else before
  }

  lemma {:induction false} DevsRunConcat(ds: seq<(nat, nat)>, a: seq<Op>, b: seq<Op>)
    ensures DevsRun(ds, a + b) == DevsRun(DevsRun(ds, a), b)
  {
    if b == [] {
      assert a + b == a;
    } else {
      assert (a + b)[..|a + b| - 1] == a + b[..|b| - 1];
      DevsRunConcat(ds, a, b[..|b| - 1]);
    }
  }

  lemma {:induction false} DevsRunNoDev(ds: seq<(nat, nat)>, ops: seq<Op>)
    requires NoDev(ops)
    ensures DevsRun(ds, ops) == ds
  {
    if ops != [] { DevsRunNoDev(ds, ops[..|ops| - 1]); }
  }

  lemma {:induction false} DevsRunAdds(ds: seq<(nat, nat)>, devid: seq<(int, int)>)
    ensures DevsRun(ds, DevOps(devid)) == AddAll(ds, devid)
  {
    hide AddDev, ToUint;
    if devid != [] {
      var pre, d := devid[..|devid| - 1], devid[|devid| - 1];
      DevsRunAdds(ds, pre);
      if d.0 != -1 && d.1 != -1 {
        assert DevOps(devid)[..|DevOps(devid)| - 1] == DevOps(pre);
      } else {
        assert DevOps(devid) == DevOps(pre);
      }
    }
  }

  lemma ScriptDevs(ds: seq<(nat, nat)>, c: Cfg<real>)
    requires c.Shaped()
    ensures DevsRun(ds, Script(c)) == AddAll(ds, c.devid)
  {
    hide DevsRun, AddAll, Set, TriOps, DeadOps, FlagOps, FamiliesOps, DevOps, NoDev;
    var h, d, f, m := HeadOps(c), DeadOps(c.dead), FlagOps(c), FamiliesOps(c);
    var a, z := [Set(c, Led, true), Set(c, Grab, true), Set(c, Serial, false)], [Set(c, SockPath, false)];
    HeadAgree(c);
    DeadKeys(c.dead);
    FlagAgree(c);
    FamiliesAgree(c);
    ListAgree(c, a, [Led, Grab, Serial]);
    ListAgree(c, z, [SockPath]);
    DevsRunNoDev(ds, h);
    DevsRunNoDev(ds, d);
    DevsRunNoDev(ds, f);
    DevsRunNoDev(ds, m);
    DevsRunNoDev(ds, a);
    DevsRunNoDev(AddAll(ds, c.devid), z);
    DevsRunAdds(ds, c.devid);
    DevsRunConcat(ds, h, d);
    DevsRunConcat(ds, h + d, f);
    DevsRunConcat(ds, h + d + f, m);
    DevsRunConcat(ds, h + d + f + m, a + DevOps(c.devid) + z);
    DevsRunConcat(ds, a, DevOps(c.devid));
    DevsRunConcat(ds, a + DevOps(c.devid), z);
    assert Script(c) == h + d + f + m + (a + DevOps(c.devid) + z);
  }

  // ---- the configuration a table stands for -------------------------------------------------

  /** The configuration whose options the table spells out, and the device ids collected in it. */
  datatype Effective = Effective(cfg: Cfg<real>, devs: seq<(nat, nat)>)

  ghost predicate StandsFor(lines: seq<Line>, e: Effective) {
    && Tidy(lines) && e.cfg.Shaped() && !AllTwo(e.cfg.dead)
    && (forall k :: Single(k) ==> Lookup(lines, k) == WantedText(e.cfg, k))
    && Devs(lines) == e.devs
  }

  // what the dead-zone lines say after saving vector `d` over lines that said `was`
  function DeadAfter(was: seq<int>, d: seq<int>): (r: seq<int>)
    ensures |was| == |d| == MAX_AXES ==> |r| == MAX_AXES
  {
    if AllTwo(d) then if Uniform(was) then DefaultDead() else was
    else if d == DefaultDead() then if Uniform(was) then was else DefaultDead()
    else d
  }

  function After(e: Effective, c: Cfg<real>): (r: Effective)
    ensures e.cfg.Shaped() && c.Shaped() ==> r.cfg.Shaped()
  {
    Effective(c.(dead := DeadAfter(e.cfg.dead, c.dead)), AddAll(e.devs, c.devid))
  }

  lemma SaveLookup(lines: seq<Line>, e: Effective, c: Cfg<real>, k: Key)
    requires StandsFor(lines, e) && c.Shaped() && Single(k)
    ensures Lookup(Save(lines, c), k) == if Decided(c, k) then WantedText(c, k) else WantedText(e.cfg, k)
  {
    hide Lookup, Script, WantedText, Decided, Tidy;
    ScriptAgrees(c);
    RunLookup(lines, Script(c), c, k);
  }

  lemma DeadAfterWanted(e: Effective, c: Cfg<real>, k: Key)
    requires e.cfg.Shaped() && c.Shaped() && !AllTwo(e.cfg.dead) && Single(k)
    ensures WantedText(After(e, c).cfg, k) == if Decided(c, k) then WantedText(c, k) else WantedText(e.cfg, k)
  {
    hide Dec, Float3, BnactName, Flags, LineOf, Clip, DefaultDeadAt;
    DefaultUneven();
    if k.DeadZoneN? { assert DefaultDead()[k.i] == DefaultDeadAt(k.i); }
  }

  /** A save turns a table standing for e into one standing for After(e, c). */
  lemma SaveStep(lines: seq<Line>, e: Effective, c: Cfg<real>)
    requires StandsFor(lines, e) && c.Shaped()
    ensures StandsFor(Save(lines, c), After(e, c))
  {
    assert Tidy(Save(lines, c)) && Devs(Save(lines, c)) == AddAll(e.devs, c.devid) by {
      hide Script, Devs, Tidy, AddAll, Lookup, WantedText;
      ScriptAgrees(c);
      ScriptDevs(e.devs, c);
      assert forall op :: op in Script(c) ==> Agrees(op, c) ==> Proper(op);
      RunTidy(lines, Script(c));
    }
    assert !AllTwo(After(e, c).cfg.dead) by { DefaultUneven(); }
    hide Save, Lookup, WantedText, Tidy, Devs, AddAll, AllTwo, DeadAfter, Decided, Single;
    forall k | Single(k) ensures Lookup(Save(lines, c), k) == WantedText(After(e, c).cfg, k) {
      SaveLookup(lines, e, c, k);
      DeadAfterWanted(e, c, k);
    }
  }

  // ---- histories of saves -----------------------------------------------------------------

  predicate Configs(h: seq<Cfg<real>>) { forall c :: c in h ==> c.Shaped() }

  /** The table after the saves of h, starting from an empty one. */
  function Table(h: seq<Cfg<real>>): seq<Line>
    requires Configs(h)
  {
    if h == [] then [] else Save(Table(h[..|h| - 1]), h[|h| - 1])
  }

  function Meaning(h: seq<Cfg<real>>): (e: Effective)
    ensures Configs(h) ==> e.cfg.Shaped()
  {
    if h == [] then Effective(DefaultCfg(1.0), []) else After(Meaning(h[..|h| - 1]), h[|h| - 1])
  }

  lemma EmptyStandsForDefault()
    ensures StandsFor([], Effective(DefaultCfg(1.0), []))
  {
    hide Float3, Dec, BnactName, Flags;
    var c := DefaultCfg<real>(1.0);
    assert !Uniform(c.dead) by { DefaultUneven(); }
    forall k | Single(k) ensures Lookup([], k) == WantedText(c, k) {
      LookupNone([], k);
      assert Wanted(c, k) == None;
    }
  }

  lemma {:induction false} HistoryStands(h: seq<Cfg<real>>)
    requires Configs(h)
    ensures StandsFor(Table(h), Meaning(h))
  {
    hide StandsFor, Save, After;
    if h == [] {
      EmptyStandsForDefault();
    } else {
      assert Configs(h[..|h| - 1]);
      HistoryStands(h[..|h| - 1]);
      SaveStep(Table(h[..|h| - 1]), Meaning(h[..|h| - 1]), h[|h| - 1]);
    }
  }
}
