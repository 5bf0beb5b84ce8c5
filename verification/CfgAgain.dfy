/**
 Saving the same configuration a second time: exactly when that changes nothing, over
 every table that saves and reloads leave.
 */
module CfgAgain {
  import opened Basics
  import opened CText
  import opened Config
  import opened CfgKeys
  import opened CfgTable
  import opened CfgWrite
  import opened CfgRead
  import opened CfgSave
  import opened CfgReload
  import opened CfgForeign
  import opened CfgTheorems
  import opened CfgShape
  import opened CfgMixed
  import opened CfgReread
  import opened CfgRemember
  import opened CfgHistories

  // ---- how many lines carry a name ----------------------------------------------------------

  /** The number of lines with the name of option k, refused ones included. */
  function Titles(lines: seq<Line>, k: Key): nat {
    if lines == [] then 0
    else Titles(lines[..|lines| - 1], k) + if KeyAt(lines[|lines| - 1]) == Some(k) then 1 else 0
  }

  lemma {:induction false} TitlesConcat(a: seq<Line>, b: seq<Line>, k: Key)
    ensures Titles(a + b, k) == Titles(a, k) + Titles(b, k)
  {
    hide KeyAt;
    if b == [] {
      assert a + b == a;
    } else {
      assert (a + b)[..|a + b| - 1] == a + b[..|b| - 1];
      TitlesConcat(a, b[..|b| - 1], k);
    }
  }

  lemma TitlesOne(l: Line, k: Key)
    ensures Titles([l], k) == if KeyAt(l) == Some(k) then 1 else 0
  {
    hide KeyAt;
    assert [l][..0] == [];
  }

  lemma TitlesSet(lines: seq<Line>, i: nat, l: Line, k: Key)
    requires i < |lines|
    ensures Titles(lines[i := l], k) + (if KeyAt(lines[i]) == Some(k) then 1 else 0)
            == Titles(lines, k) + if KeyAt(l) == Some(k) then 1 else 0
  {
    hide Titles, KeyAt;
    var a, z := lines[..i], lines[i + 1..];
    assert lines == a + [lines[i]] + z && lines[i := l] == a + [l] + z;
    TitlesConcat(a, [lines[i]], k);
    TitlesConcat(a + [lines[i]], z, k);
    TitlesConcat(a, [l], k);
    TitlesConcat(a + [l], z, k);
    TitlesOne(lines[i], k);
    TitlesOne(l, k);
  }

  lemma TitlesAdd(lines: seq<Line>, l: Line, k: Key)
    ensures Titles(lines + [l], k) == Titles(lines, k) + if KeyAt(l) == Some(k) then 1 else 0
  {
    hide Titles, KeyAt;
    TitlesConcat(lines, [l], k);
    TitlesOne(l, k);
  }

  lemma {:induction false} NoTitles(lines: seq<Line>, k: Key)
    ensures Titles(lines, k) == 0 <==> forall i :: 0 <= i < |lines| ==> KeyAt(lines[i]) != Some(k)
  {
    hide KeyAt;
    if lines != [] {
      var pre := lines[..|lines| - 1];
      NoTitles(pre, k);
      assert forall i :: 0 <= i < |pre| ==> pre[i] == lines[i];
    }
  }

  // ---- one step -------------------------------------------------------------------------------

  // the line setting an option takes has the name of option k
  function Taken(op: Op, lines: seq<Line>, k: Key): nat {
    match Find(op, lines)
    case None => 0
    case Some(j) => if j < |lines| && KeyAt(lines[j]) == Some(k) then 1 else 0
  }

  lemma PutTitles(op: Op, lines: seq<Line>, k: Key)
    requires Shape(lines) && op.Put? && Single(op.key) && Single(k)
    ensures op.key == Repeat && k != Repeat ==> Titles(Apply(op, lines), k) == Titles(lines, k) - Taken(op, lines, k)
    ensures op.key != Repeat ==>
              Titles(Apply(op, lines), k) == Titles(lines, k) + if op.key == k && Find(op, lines).None? then 1 else 0
  {
    hide Title, LineOf, Clip, Titles, Order, Devs, Formed;
    FindIsFirst(op, lines);
    PutTitle(op);
    match Find(op, lines)
    case Some(j) =>
      TitlesSet(lines, j, Edit(op, lines[j]), k);
      if op.key != Repeat { TaggedTitle(lines[j], op.key); }
    case None => TitlesAdd(lines, Append(op)[0], k);
  }

  lemma DelTitles(op: Op, lines: seq<Line>, k: Key)
    requires Shape(lines) && op.Del? && Single(op.key) && Single(k)
    ensures op.key != k ==> Titles(Apply(op, lines), k) == Titles(lines, k)
    ensures op.key == k && !op.ownOnly ==>
              Titles(Apply(op, lines), k) == if Titles(lines, k) == 0 then 0 else Titles(lines, k) - 1
  {
    hide Title, KeyText, Titles, Order, Devs, Formed, Named;
    FindIsFirst(op, lines);
    forall i | 0 <= i < |lines|
      ensures Hit(op, lines[i]) <==> KeyAt(lines[i]) == Some(op.key)
    {
      NamedIs(lines[i], op.key);
    }
    NoTitles(lines, k);
    match Find(op, lines)
    case Some(j) => TitlesSet(lines, j, Edit(op, lines[j]), k);
    case None => assert Apply(op, lines) == lines;
  }

  lemma DevTitles(op: Op, lines: seq<Line>, k: Key)
    requires Shape(lines) && op.PutDev? && Single(k)
    ensures Titles(Apply(op, lines), k) == Titles(lines, k)
  {
    hide Title, LineOf, DevIdText, ToUint, Titles, Order, Devs, DevOf, Formed;
    FindIsFirst(op, lines);
    match Find(op, lines)
    case Some(j) =>
      DevTagged(lines[j]);
      TaggedTitle(lines[j], DevId);
      DevFormed(op.vid, op.pid, lines[j].own);
      TitlesSet(lines, j, Edit(op, lines[j]), k);
    case None =>
      DevFormed(op.vid, op.pid, false);
      TitlesAdd(lines, BLANK, k);
      TitlesAdd(lines + [BLANK], Append(op)[1], k);
      assert Apply(op, lines) == lines + [BLANK] + [Append(op)[1]];
  }

  lemma OtherTitles(op: Op, lines: seq<Line>, k: Key)
    requires Shape(lines) && (op.PutDev? || Single(op.key)) && Single(k) && !Touches(op, k) && !IsPutRepeat(op)
    ensures Titles(Apply(op, lines), k) == Titles(lines, k)
  {
    hide Shape, Apply, Titles, Single;
    match op
    case Put(_, _) => PutTitles(op, lines, k);
    case Del(_, _) => DelTitles(op, lines, k);
    case PutDev(_, _) => DevTitles(op, lines, k);
  }

  // ---- runs of steps ------------------------------------------------------------------------------

  // the names after the steps that follow repeat-interval, of which at most one touches k
  function StepTitles(n: int, slot: bool, c: Cfg<real>, k: Key): int
    requires c.Shaped() && Single(k)
  {
    if Wanted(c, k).Some? then n + if slot then 0 else 1 else if n == 0 then 0 else n - 1
  }

  lemma AgreesSingle(op: Op, c: Cfg<real>)
    requires c.Shaped() && Agrees(op, c)
    ensures op.PutDev? || Single(op.key)
    ensures op.Put? ==> Wanted(c, op.key).Some?
    ensures op.Del? ==> Wanted(c, op.key).None? && op.ownOnly == OwnOnly(c, op.key)
  {
    hide Wanted, LineOf, Clip, OwnOnly;
  }

  lemma TouchTitles(op: Op, lines: seq<Line>, c: Cfg<real>, k: Key)
    requires Shape(lines) && c.Shaped() && Agrees(op, c) && Touches(op, k) && Single(k)
    requires !OwnOnly(c, k) && !IsPutRepeat(op)
    ensures Titles(Apply(op, lines), k) == StepTitles(Titles(lines, k), Slot(lines, k).Some?, c, k)
  {
    hide Shape, Apply, Titles, Single, Agrees, Wanted, OwnOnly;
    AgreesSingle(op, c);
    if op.Put? {
      PutTitles(op, lines, k);
      SlotFound(lines, k, op.val);
    } else {
      DelTitles(op, lines, k);
    }
  }

  lemma SlotFound(lines: seq<Line>, k: Key, v: string)
    ensures Slot(lines, k).Some? <==> Find(Put(k, v), lines).Some?
  {
    hide Tagged;
    FindIsFirst(Put(k, v), lines);
    FindIsFirst(Put(k, ""), lines);
  }

  lemma {:induction false} RunTitles(lines: seq<Line>, ops: seq<Op>, c: Cfg<real>, k: Key)
    requires Shape(lines) && Printable(c) && c.Shaped() && AllAgree(ops, c) && NoRepeat(ops)
    requires Single(k) && Count(ops, k) <= 1
    requires Count(ops, k) == 1 ==> k != Repeat && !OwnOnly(c, k)
    ensures Titles(Run(lines, ops), k) ==
            if Count(ops, k) == 0 then Titles(lines, k) else StepTitles(Titles(lines, k), Slot(lines, k).Some?, c, k)
  {
    hide Shape, Apply, Agrees, Printable, Titles, Slot, StepTitles, OwnOnly, Single;
    if ops != [] {
      var pre, op := ops[..|ops| - 1], ops[|ops| - 1];
      assert op in ops;
      RunTitles(lines, pre, c, k);
      RunShape(lines, pre, c);
      AgreesSingle(op, c);
      if Touches(op, k) {
        assert Settable(k) by { SettableSingle(); }
        RunOnce(lines, pre, c, k);
        TouchTitles(op, Run(lines, pre), c, k);
      } else {
        OtherTitles(op, Run(lines, pre), k);
      }
    }
  }

  // ---- a whole save -----------------------------------------------------------------------------------

  /** Options several lines can carry the name of: refused ones may stand beside the one that holds it. */
  predicate Several(k: Key) { k == Repeat || (Single(k) && Refusable(k)) }

  /**
   The lines named k that are left when the step for k comes: writing repeat-interval takes the
   first line tagged 0.
   */
  function LeftTitles(lines: seq<Line>, c: Cfg<real>, k: Key): int {
    Titles(lines, k) - if c.repeat == -1 then 0 else Taken(Put(Repeat, ""), lines, k)
  }

  lemma FirstTitles(lines: seq<Line>, c: Cfg<real>, k: Key)
    requires Shape(lines) && Printable(c) && c.Shaped() && Several(k)
    ensures Titles(Run(lines, FirstOps(c)), k) == Titles(lines, k)
  {
    hide Shape, Run, FirstOps, Titles, Printable, Agrees, Count;
    FirstAgree(c);
    FirstNoRepeat(c);
    assert Count(FirstOps(c), k) == 0 by {
      if k == Repeat { CountNoRepeat(FirstOps(c)); } else { FirstNoRefusable(c); CountNone(FirstOps(c), k); }
    }
    RunTitles(lines, FirstOps(c), c, k);
  }

  lemma {:induction false} CountNoRepeat(ops: seq<Op>)
    requires NoRepeat(ops)
    ensures Count(ops, Repeat) == 0
  {
    if ops != [] { CountNoRepeat(ops[..|ops| - 1]); }
  }

  // the repeat-interval step takes the line that was first in the table
  lemma SameTaken(lines: seq<Line>, c: Cfg<real>, v: string, k: Key)
    requires Shape(lines) && c.Shaped()
    ensures Taken(Put(Repeat, v), Run(lines, FirstOps(c)), k) == Taken(Put(Repeat, ""), lines, k)
  {
    hide Shape, Run, FirstOps, KeyAt;
    FirstZero(lines, c, v);
    FindIsFirst(Put(Repeat, ""), lines);
    if FirstRepeat(lines).Some? { ZeroLines(lines, c, FirstRepeat(lines).value); }
  }

  // the names after the repeat-interval step
  lemma RepeatTitles(lines: seq<Line>, c: Cfg<real>, k: Key)
    requires Shape(lines) && Printable(c) && c.Shaped() && Several(k)
    ensures k != Repeat ==> Titles(RepeatStep(lines, c), k) == LeftTitles(lines, c, k)
    ensures k == Repeat && c.repeat == -1 ==>
              Titles(RepeatStep(lines, c), k) == if Titles(lines, k) == 0 then 0 else Titles(lines, k) - 1
  {
    hide Shape, Run, FirstOps, Titles, Printable, Set, Apply, Dec, Taken, Refusable;
    FirstTitles(lines, c, k);
    RepeatShape(lines, c);
    RepeatOp(c);
    var first, op := Run(lines, FirstOps(c)), Set(c, Repeat, false);
    assert Single(Repeat);
    if c.repeat == -1 {
      DelTitles(op, first, k);
    } else {
      PutTitles(op, first, k);
      SameTaken(lines, c, op.val, k);
    }
  }

  /**
   How many lines carry the name of an option after a save: one more if it is written and was not
   held, one less if it is removed.
   */
  lemma SavedTitles(lines: seq<Line>, c: Cfg<real>, k: Key)
    requires Shape(lines) && Printable(c) && c.Shaped() && Several(k) && !OwnOnly(c, k)
    requires k == Repeat ==> c.repeat == -1
    ensures Titles(Save(lines, c), k) == StepTitles(LeftTitles(lines, c, k), Slot(lines, k).Some?, c, k)
    ensures LeftTitles(lines, c, k) >= 0
  {
    hide Shape, Run, FirstOps, LastOps, Titles, Printable, Agrees, Count, Slot, OwnOnly, RepeatStep, Set, Save,
         LeftTitles;
    ScriptSplit(lines, c);
    FirstAgree(c);
    LastNoRepeat(c);
    FirstNoRepeat(c);
    RepeatTitles(lines, c, k);
    RepeatShape(lines, c);
    if k == Repeat {
      CountNoRepeat(LastOps(c));
      RunTitles(RepeatStep(lines, c), LastOps(c), c, k);
      OffTitles(lines, c, k);
      OffWanted(c);
    } else {
      CountLast(c, k);
      FirstNoRefusable(c);
      CountNone(FirstOps(c), k);
      RunOnce(lines, FirstOps(c), c, k);
      RunTitles(RepeatStep(lines, c), LastOps(c), c, k);
    }
    assert Save(lines, c) == Run(RepeatStep(lines, c), LastOps(c)) by { SaveSplit(lines, c); }
  }

  lemma OffTitles(lines: seq<Line>, c: Cfg<real>, k: Key)
    requires c.repeat == -1
    ensures LeftTitles(lines, c, k) == Titles(lines, k)
  {
  }

  lemma OffWanted(c: Cfg<real>)
    requires c.Shaped() && c.repeat == -1
    ensures Wanted(c, Repeat) == None
  {
  }

  lemma SaveSplit(lines: seq<Line>, c: Cfg<real>)
    requires c.Shaped()
    ensures Save(lines, c) == Run(RepeatStep(lines, c), LastOps(c))
  {
    hide Run, FirstOps, LastOps, Set, Apply, Save;
    ScriptSplit(lines, c);
  }
  // ---- steps that find nothing to do ----------------------------------------------------------------------

  lemma NoHitSettled(op: Op, lines: seq<Line>)
    requires op.Del? && forall i :: 0 <= i < |lines| ==> !Hit(op, lines[i])
    ensures Apply(op, lines) == lines
  {
    hide Hit;
    FindIsFirst(op, lines);
    assert lines + [] == lines;
  }

  // removing an option leaves the table if the line it finds is not to be removed
  lemma DelSettled(op: Op, lines: seq<Line>)
    requires Shape(lines) && op.Del? && Settable(op.key)
    requires HasRefused(lines, op.key) ==> op.ownOnly
    requires Slot(lines, op.key).Some? ==> op.ownOnly && (HasRefused(lines, op.key) || !Slot(lines, op.key).value.own)
    ensures Apply(op, lines) == lines
  {
    hide Title, KeyText, Order, Devs, Formed, Named, Slot, HasRefused, Refuses;
    FindIsFirst(op, lines);
    forall i | 0 <= i < |lines|
      ensures Hit(op, lines[i]) <==> KeyAt(lines[i]) == Some(op.key)
    {
      NamedIs(lines[i], op.key);
    }
    match Find(op, lines)
    case Some(j) =>
      FirstOfName(lines, op.key, j);
      if HasRefused(lines, op.key) { RefusedOwn(lines[j], op.key); } else { SlotIs(lines, op.key, j); }
      assert lines[j := lines[j]] == lines;
    case None => assert lines + [] == lines;
  }

  lemma RefusedOwn(l: Line, k: Key)
    requires Formed(l) && RefusedLine(l, k) && k != Repeat
    ensures !l.own
  {
    hide Title, TidyLine, Spells, Refuses;
  }

  lemma PutSettled(op: Op, lines: seq<Line>)
    requires op.Put? && Find(op, lines).Some?
    requires Slot(lines, op.key).Some? && Slot(lines, op.key).value.text == Some(Clip(LineOf(op.key, op.val)))
    ensures Apply(op, lines) == lines
  {
    hide LineOf, Clip;
    FindIsFirst(op, lines);
    FindIsFirst(Put(op.key, ""), lines);
    var j := Find(op, lines).value;
    assert Find(Put(op.key, ""), lines) == Some(j);
    assert lines[j := lines[j]] == lines;
  }

  lemma DevSettled(op: Op, lines: seq<Line>)
    requires Shape(lines) && op.PutDev? && (ToUint(op.vid), ToUint(op.pid)) in Devs(lines)
    ensures Apply(op, lines) == lines
  {
    hide LineOf, DevIdText, ToUint, DevOf, Named, Title, Order, Unkeyed;
    DevsMember(lines, (ToUint(op.vid), ToUint(op.pid)));
    FindIsFirst(op, lines);
    var j := Find(op, lines).value;
    DevTagged(lines[j]);
    DevIdTextOfUint(op.vid, op.pid);
    assert Formed(lines[j]) && TidyLine(lines[j]);
    assert lines[j := lines[j]] == lines;
  }

  // ---- the second save ----------------------------------------------------------------------------------------

  // removing only the daemon's own lines leaves the refused ones
  lemma OwnRefused(op: Op, lines: seq<Line>)
    requires Shape(lines) && op.Del? && op.ownOnly && Settable(op.key)
    ensures HasRefused(Apply(op, lines), op.key) <==> HasRefused(lines, op.key)
  {
    hide Title, KeyText, Order, Devs, Formed, Named, HasRefused, Refuses;
    FindIsFirst(op, lines);
    forall i | 0 <= i < |lines|
      ensures Hit(op, lines[i]) <==> KeyAt(lines[i]) == Some(op.key)
    {
      NamedIs(lines[i], op.key);
    }
    match Find(op, lines)
    case Some(j) =>
      var l := Edit(op, lines[j]);
      if RefusedLine(lines[j], op.key) {
        RefusedOwn(lines[j], op.key);
        assert lines[j := lines[j]] == lines;
      } else {
        RefusedSet(lines, j, l, op.key);
      }
    case None => assert lines + [] == lines;
  }

  lemma {:induction false} RunOwnRefused(lines: seq<Line>, ops: seq<Op>, c: Cfg<real>, k: Key)
    requires Shape(lines) && Printable(c) && c.Shaped() && AllAgree(ops, c) && NoRepeat(ops) && Settable(k)
    requires Wanted(c, k) == None && OwnOnly(c, k)
    ensures HasRefused(Run(lines, ops), k) <==> HasRefused(lines, k)
  {
    hide Shape, Apply, Agrees, Printable, HasRefused, Wanted, OwnOnly;
    if ops != [] {
      var pre, op := ops[..|ops| - 1], ops[|ops| - 1];
      assert op in ops;
      RunOwnRefused(lines, pre, c, k);
      RunShape(lines, pre, c);
      AgreesSingle(op, c);
      if Touches(op, k) { OwnRefused(op, Run(lines, pre)); } else { StepShape(op, Run(lines, pre), c); }
    }
  }

  lemma SavedOwnRefused(lines: seq<Line>, c: Cfg<real>, k: Key)
    requires Shape(lines) && Printable(c) && c.Shaped() && Settable(k) && Wanted(c, k) == None && OwnOnly(c, k)
    ensures HasRefused(Save(lines, c), k) <==> RefusedLeft(lines, c, k)
  {
    hide Shape, Printable, HasRefused, Wanted, OwnOnly, RefusedLeft, Save, RepeatStep, Agrees, LastOps, Run;
    RepeatRefused(lines, c, k);
    FirstAgree(c);
    LastNoRepeat(c);
    SaveSplit(lines, c);
    RunOwnRefused(RepeatStep(lines, c), LastOps(c), c, k);
  }

  /** No line that the second save would remove is left: of every option to be removed at most one line was there. */
  ghost predicate OnceIsEnough(lines: seq<Line>, c: Cfg<real>)
    requires c.Shaped()
  {
    forall k :: Several(k) && Wanted(c, k) == None && !OwnOnly(c, k) ==> LeftTitles(lines, c, k) <= 1
  }

  lemma TitlesRefused(lines: seq<Line>, k: Key)
    requires Titles(lines, k) == 0
    ensures !HasRefused(lines, k) && (Slot(lines, k).Some? && Shape(lines) && Settable(k) ==> false)
  {
    hide KeyAt, Formed, Order, Devs, Titles;
    NoTitles(lines, k);
    if Slot(lines, k).Some? && Shape(lines) && Settable(k) {
      var i := SlotHolder(lines, k);
      TaggedTitle(lines[i], k);
    }
  }

  lemma DelAgain(lines: seq<Line>, c: Cfg<real>, op: Op)
    requires Shape(lines) && Printable(c) && c.Shaped() && OnceIsEnough(lines, c)
    requires op.Del? && Settable(op.key) && Agrees(op, c) && Decided(c, op.key)
    ensures Apply(op, Save(lines, c)) == Save(lines, c)
  {
    hide Shape, Printable, HasRefused, Wanted, OwnOnly, RefusedLeft, Save, Agrees, Slot, Titles, LeftTitles, Decided,
         Refusable, Apply;
    var k, after := op.key, Save(lines, c);
    SaveShape(lines, c);
    AgreesSingle(op, c);
    SavedSlot(lines, c, k);
    if OwnOnly(c, k) {
      SavedOwnRefused(lines, c, k);
    } else if Refusable(k) {
      assert Several(k) by { SettableSingle(); }
      SavedTitles(lines, c, k);
      TitlesRefused(after, k);
    } else {
      NeverRefused(after, k);
      NothingRefused(lines, c, k);
    }
    DelSettled(op, after);
  }

  lemma DelRepeatAgain(lines: seq<Line>, c: Cfg<real>, op: Op)
    requires Shape(lines) && Printable(c) && c.Shaped() && OnceIsEnough(lines, c)
    requires op.Del? && op.key == Repeat && Agrees(op, c)
    ensures Apply(op, Save(lines, c)) == Save(lines, c)
  {
    hide Shape, Printable, Wanted, Save, Agrees, Titles, LeftTitles, Apply, Hit, KeyAt, Formed;
    var after := Save(lines, c);
    SaveShape(lines, c);
    AgreesSingle(op, c);
    assert c.repeat == -1 by { if c.repeat != -1 { RepeatWanted(c); } }
    assert Several(Repeat) && !OwnOnly(c, Repeat);
    SavedTitles(lines, c, Repeat);
    NoTitles(after, Repeat);
    forall i | 0 <= i < |after| ensures !Hit(op, after[i]) { NotHit(after, op, i); }
    NoHitSettled(op, after);
  }

  lemma NotHit(lines: seq<Line>, op: Op, i: nat)
    requires Shape(lines) && i < |lines| && op.Del? && Saved(op.key) && KeyAt(lines[i]) != Some(op.key)
    ensures !Hit(op, lines[i])
  {
    hide KeyAt, Formed, Named, KeyText, Order, Devs;
    NamedIs(lines[i], op.key);
  }
  lemma PutAgain(lines: seq<Line>, c: Cfg<real>, op: Op)
    requires Shape(lines) && Printable(c) && c.Shaped() && op.Put? && Settable(op.key) && Agrees(op, c)
    ensures Apply(op, Save(lines, c)) == Save(lines, c)
  {
    hide Shape, Printable, Wanted, Save, Agrees, Slot, LineOf, Clip, Apply, Find;
    AgreesSingle(op, c);
    PutText(op, c);
    SavedSlot(lines, c, op.key);
    SlotFound(Save(lines, c), op.key, op.val);
    PutSettled(op, Save(lines, c));
  }

  lemma PutFinds(op: Op, lines: seq<Line>)
    requires op.Put?
    ensures var slot := Slot(Apply(op, lines), op.key);
            slot.Some? && slot.value.text == Some(Clip(LineOf(op.key, op.val)))
  {
    hide LineOf, Clip;
    var after := Apply(op, lines);
    FindIsFirst(op, lines);
    FindIsFirst(Put(op.key, ""), after);
    var j := if Find(op, lines).None? then |lines| else Find(op, lines).value;
    assert Tagged(after[j], op.key) && forall i :: 0 <= i < j ==> after[i] == lines[i] && !Hit(op, lines[i]);
    assert Find(Put(op.key, ""), after) == Some(j);
  }

  // the first line tagged 0 is a repeat-interval line, and stays the first
  lemma FirstStays(lines: seq<Line>, ops: seq<Op>)
    requires NoRepeat(ops) && Slot(lines, Repeat).Some? && Named(Slot(lines, Repeat).value, KeyText(Repeat))
    ensures Slot(Run(lines, ops), Repeat) == Slot(lines, Repeat)
  {
    hide Run, Named, KeyText, Single;
    var after := Run(lines, ops);
    FindIsFirst(Put(Repeat, ""), lines);
    FindIsFirst(Put(Repeat, ""), after);
    var j := FirstRepeat(lines).value;
    forall op | op in ops ensures Immune(op, lines[j]) { RepeatImmune(op, lines[j]); }
    RunImmune(lines, ops, j);
    var i := FirstRepeat(after).value;
    if i < j { RunNoNew(lines, ops, i); }
  }

  // the first line tagged 0 that a save with repeat on leaves says repeat-interval
  lemma SavedRepeat(lines: seq<Line>, c: Cfg<real>)
    requires Shape(lines) && Printable(c) && c.Shaped() && c.repeat != -1
    ensures var slot := Slot(Save(lines, c), Repeat);
            slot.Some? && slot.value.text == Some(LineOf(Repeat, Dec(c.repeat) + "\n"))
            && KeyAt(slot.value) == Some(Repeat)
  {
    hide Run, FirstOps, LastOps, Set, Slot, Dec, Named, KeyText, LineOf, Clip, Printable, Shape, Title, Apply;
    var op := Set(c, Repeat, false);
    RepeatOp(c);
    RepeatFits(c);
    PutFinds(op, Run(lines, FirstOps(c)));
    var l := Slot(RepeatStep(lines, c), Repeat).value;
    PutNames(l, op.val);
    PutTitle(op);
    LastNoRepeat(c);
    FirstStays(RepeatStep(lines, c), LastOps(c));
    SaveSplit(lines, c);
  }

  lemma PutRepeatAgain(lines: seq<Line>, c: Cfg<real>, op: Op)
    requires Shape(lines) && Printable(c) && c.Shaped() && op.Put? && op.key == Repeat && Agrees(op, c)
    ensures Apply(op, Save(lines, c)) == Save(lines, c)
  {
    hide Shape, Printable, Save, Agrees, Slot, LineOf, Clip, Apply, Find, Dec, Wanted;
    AgreesSingle(op, c);
    assert c.repeat != -1 by { if c.repeat == -1 { OffWanted(c); } }
    PutText(op, c);
    RepeatWanted(c);
    SavedRepeat(lines, c);
    SlotFound(Save(lines, c), Repeat, op.val);
    PutSettled(op, Save(lines, c));
  }

  lemma DevAgain(lines: seq<Line>, c: Cfg<real>, op: Op)
    requires Shape(lines) && Printable(c) && c.Shaped() && op.PutDev? && op in Script(c)
    ensures Apply(op, Save(lines, c)) == Save(lines, c)
  {
    hide Shape, Printable, Save, Script, Devs, AddAll, Apply, ToUint;
    SaveShape(lines, c);
    ScriptDevOps(c, op);
    AddAllHas(Devs(lines), c.devid, op);
    DevSettled(op, Save(lines, c));
  }

  lemma NothingAgain(lines: seq<Line>, c: Cfg<real>, op: Op)
    requires Shape(lines) && Printable(c) && c.Shaped() && OnceIsEnough(lines, c) && op in Script(c)
    ensures Apply(op, Save(lines, c)) == Save(lines, c)
  {
    hide Shape, Printable, Save, Script, Agrees, Apply, OnceIsEnough, Decided;
    ScriptAgrees(c);
    assert Agrees(op, c);
    AgreesSingle(op, c);
    SettableSingle();
    if op.PutDev? {
      DevAgain(lines, c, op);
    } else if op.Put? {
      if op.key == Repeat { PutRepeatAgain(lines, c, op); } else { PutAgain(lines, c, op); }
    } else if op.key == Repeat {
      DelRepeatAgain(lines, c, op);
    } else {
      assert Covers(Script(c), op.key) by { assert Touches(op, op.key); }
      DelAgain(lines, c, op);
    }
  }

  // with repeat on, the second save finds its own repeat-interval line
  lemma AllLeft(lines: seq<Line>, c: Cfg<real>, k: Key)
    requires Shape(lines) && Printable(c) && c.Shaped() && Single(k) && Wanted(c, k) == None
    ensures LeftTitles(Save(lines, c), c, k) == Titles(Save(lines, c), k)
  {
    hide Shape, Printable, Save, Titles, KeyAt, Dec, LineOf, Wanted;
    if c.repeat != -1 {
      SavedRepeat(lines, c);
      RepeatWanted(c);
      FindIsFirst(Put(Repeat, ""), Save(lines, c));
    }
  }

  lemma SecondRemoves(lines: seq<Line>, c: Cfg<real>, k: Key)
    requires Shape(lines) && Printable(c) && c.Shaped() && Several(k) && Wanted(c, k) == None && !OwnOnly(c, k)
    requires LeftTitles(lines, c, k) > 1
    ensures Shape(Save(lines, c)) && Titles(Save(Save(lines, c), c), k) == Titles(Save(lines, c), k) - 1
  {
    hide Shape, Printable, Save, Titles, LeftTitles, Wanted, OwnOnly, Refusable;
    assert k == Repeat ==> c.repeat == -1 by { if c.repeat != -1 { RepeatWanted(c); } }
    SaveShape(lines, c);
    SavedTitles(lines, c, k);
    AllLeft(lines, c, k);
    SavedTitles(Save(lines, c), c, k);
  }

  // ---- the file ------------------------------------------------------------

  lemma KeptTitles(l: Line, k: Key)
    requires Formed(l)
    ensures Titles(Kept(l), k) == if KeyAt(l) == Some(k) then 1 else 0
  {
    hide Formed, KeyAt, DevOf, Kept, Titles;
    if l.text.None? {
      GoneKept(l);
      GoneFormed(l);
      assert Titles([], k) == 0 by { NoTitles([], k); }
    } else {
      KeptLine(l);
      EmptyFormed();
      TitlesOne(Kept(l)[0], k);
      if |Kept(l)| == 2 {
        assert Kept(l) == [Kept(l)[0]] + [EMPTY];
        TitlesAdd([Kept(l)[0]], EMPTY, k);
      } else {
        assert Kept(l) == [Kept(l)[0]];
      }
    }
  }

  /** A reload keeps the number of lines of each name. */
  lemma {:induction false} TitlesReread(lines: seq<Line>, k: Key)
    requires forall i :: 0 <= i < |lines| ==> Formed(lines[i])
    ensures Titles(Reread(lines), k) == Titles(lines, k)
  {
    hide Formed, KeyAt, Kept;
    if lines != [] {
      var pre, l := lines[..|lines| - 1], lines[|lines| - 1];
      TitlesReread(pre, k);
      KeptTitles(l, k);
      TitlesConcat(Reread(pre), Kept(l), k);
    }
  }

  lemma SameTextTitles(a: seq<Line>, b: seq<Line>, k: Key)
    requires Shape(a) && Shape(b) && Text(a) == Text(b)
    ensures Titles(a, k) == Titles(b, k)
  {
    hide Formed, Order, Devs, Text, Titles, RememberFrom, Reread;
    RememberIs(a);
    RememberIs(b);
    TitlesReread(a, k);
    TitlesReread(b, k);
  }

  /**
   Over every table that saves and reloads leave: saving the same configuration again
   changes the table, and the file, unless at most one line of each option to be removed
   was there.
   */
  lemma SecondSaveIff(lines: seq<Line>, c: Cfg<real>)
    requires Shape(lines) && Printable(c) && c.Shaped()
    ensures Save(Save(lines, c), c) == Save(lines, c) <==> OnceIsEnough(lines, c)
    ensures Text(Save(Save(lines, c), c)) == Text(Save(lines, c)) <==> OnceIsEnough(lines, c)
  {
    hide Shape, Printable, Script, Apply, Text, LeftTitles, Titles, Wanted, OwnOnly, Refusable, Run;
    var after := Save(lines, c);
    if OnceIsEnough(lines, c) {
      forall op | op in Script(c) ensures Apply(op, after) == after { NothingAgain(lines, c, op); }
      RunSettled(after, Script(c));
    } else {
      var k :| Several(k) && Wanted(c, k) == None && !OwnOnly(c, k) && LeftTitles(lines, c, k) > 1;
      SecondRemoves(lines, c, k);
      SaveShape(after, c);
      if Text(Save(after, c)) == Text(after) { SameTextTitles(Save(after, c), after, k); }
    }
  }

  // ---- a run in which it removes a line ------------------------------------

  // a line that holds an option after a reload held it before
  lemma {:induction false} RereadFrom(lines: seq<Line>, i: nat, k: Key) returns (j: nat)
    requires forall n :: 0 <= n < |lines| ==> Formed(lines[n])
    requires Settable(k) && i < |Reread(lines)| && Tagged(Reread(lines)[i], k)
    ensures j < |lines| && Tagged(lines[j], k) && ReadTag(lines[j].text.value) == k
  {
    hide Formed, KeyAt, DevOf, ReadTag;
    var pre, l := lines[..|lines| - 1], lines[|lines| - 1];
    if i < |Reread(pre)| {
      j := RereadFrom(pre, i, k);
    } else {
      j := |lines| - 1;
      KeptHolds(l, Reread(lines)[i], k);
    }
  }
  // the line of a refused option does not hold it any more after a reload
  lemma RereadRefused(lines: seq<Line>, k: Key)
    requires Shape(lines) && Settable(k) && Slot(lines, k).Some? && Slot(lines, k).value.text.Some?
    requires ReadTag(Slot(lines, k).value.text.value) != k
    ensures Slot(Reread(lines), k) == None
  {
    hide Formed, Slot, Reread, Order, Devs, ReadTag, Settable;
    if Slot(Reread(lines), k).Some? {
      var i := SlotHolder(Reread(lines), k);
      var j := RereadFrom(lines, i, k);
      SlotIs(lines, k, j);
    }
  }

  // the default configuration with another first axis
  function FirstAxis(v: int): (c: Cfg<real>)
    ensures c.Shaped() && c.mapAxis[0] == v
    ensures v == 0 ==> c == DefaultCfg(1.0)
  {
    var d := DefaultCfg<real>(1.0);
    assert v == 0 ==> d.mapAxis[0 := v] == d.mapAxis;
    d.(mapAxis := d.mapAxis[0 := v])
  }

  lemma FirstAxisFits(v: int)
    requires IsInt(v)
    ensures Printable(FirstAxis(v)) && DevIds(FirstAxis(v).devid) && FirstAxis(v).repeat == -1
    ensures Wanted(FirstAxis(v), AxisMap(0)) == if v != 0 then Some(Dec(v)) else None
  {
    hide OneLine, Printable3, Dec;
    DefaultPrintable();
  }

  lemma MinusRefused()
    ensures ReadTag(LineOf(AxisMap(0), Dec(-1))) == Repeat
  {
    hide Dec, ParseLine, ParseOption, LineOf, Word, ScanInt, Body, KeyText, Wanted;
    var c := FirstAxis(-1);
    FirstAxisFits(-1);
    PrintedSpells(c, AxisMap(0));
    var t := LineOf(AxisMap(0), Dec(-1));
    ParseSpelled(t, AxisMap(0), Start());
    WordOfWord(Dec(-1));
    ScanOfDec(-1);
    RefusedTag(AxisMap(0), Dec(-1), Start());
  }

  lemma OneMoreName(lines: seq<Line>, v: int)
    requires Shape(lines) && IsInt(v)
    ensures var c, k := FirstAxis(v), AxisMap(0);
            var n := Titles(lines, k);
            && Shape(Save(lines, c)) && LeftTitles(lines, c, k) == n
            && (v != 0 ==> Titles(Save(lines, c), k) == n + if Slot(lines, k).Some? then 0 else 1)
            && (v != 0 ==>
                  Slot(Save(lines, c), k).Some? && Slot(Save(lines, c), k).value.text == Some(LineOf(k, Dec(v))))
  {
    hide Shape, Save, Titles, Slot, Dec, LineOf, Wanted, Printable, FirstAxis, Taken;
    var c, k := FirstAxis(v), AxisMap(0);
    FirstAxisFits(v);
    SaveShape(lines, c);
    SavedTitles(lines, c, k);
    SavedSlot(lines, c, k);
  }

  // the reloaded -1 is refused, so the save of 2 adds a second line of that name
  lemma TwoTitles()
    ensures var d := Save(RememberFrom(Text(Save([], FirstAxis(-1))), Start()), FirstAxis(2));
            Shape(d) && LeftTitles(d, FirstAxis(0), AxisMap(0)) > 1
  {
    hide Shape, Save, Titles, Slot, Dec, LineOf, Wanted, Printable, FirstAxis, RememberFrom, Reread, Text, LeftTitles,
         Exclusive, Ids, DevIds, DefaultCfg;
    var k := AxisMap(0);
    var a := Save([], FirstAxis(-1));
    var b := Reread(a);
    var d := Save(b, FirstAxis(2));
    EmptyFits();
    SlotNone([], k);
    NoTitles([], k);
    OneMoreName([], -1);
    RememberIs(a);
    RereadShape(a);
    MinusRefused();
    RereadRefused(a, k);
    TitlesReread(a, k) by { AllFormed(a); }
    OneMoreName(b, 2);
    OneMoreName(d, 0);
  }

  /**
   Save an axis map of -1, reload, save 2, and save the default twice: the first of these
   saves removes the refused line, the second one the line of 2.
   */
  lemma SecondSaveRemoves()
    ensures var h := [Saves(FirstAxis(-1)), Rereads, Saves(FirstAxis(2))];
            && Turns(h)
            && var once := Save(TableAfter([], h), DefaultCfg(1.0));
               Save(once, DefaultCfg(1.0)) != once && Text(Save(once, DefaultCfg(1.0))) != Text(once)
  {
    hide Shape, Save, Slot, Wanted, Printable, FirstAxis, RememberFrom, Text, LeftTitles, DevIds, DefaultCfg,
         OnceIsEnough, Turns, TableAfter;
    var c := FirstAxis(0);
    var d := Save(RememberFrom(Text(Save([], FirstAxis(-1))), Start()), FirstAxis(2));
    FirstAxisFits(0);
    ThreeTurns();
    TwoTitles();
    NotEnough(d, c, AxisMap(0));
    SecondSaveIff(d, c);
    assert c == DefaultCfg(1.0);
  }

  lemma NotEnough(lines: seq<Line>, c: Cfg<real>, k: Key)
    requires c.Shaped() && Several(k) && Wanted(c, k) == None && !OwnOnly(c, k) && LeftTitles(lines, c, k) > 1
    ensures !OnceIsEnough(lines, c)
  {
    hide Wanted, OwnOnly, LeftTitles, Several;
  }

  lemma AllFormed(lines: seq<Line>)
    requires Shape(lines)
    ensures forall i :: 0 <= i < |lines| ==> Formed(lines[i])
  {
  }

  lemma ThreeTurns()
    ensures var h := [Saves(FirstAxis(-1)), Rereads, Saves(FirstAxis(2))];
            Turns(h) && TableAfter([], h) == Save(RememberFrom(Text(Save([], FirstAxis(-1))), Start()), FirstAxis(2))
  {
    hide Save, FirstAxis, RememberFrom, Text, Printable, DevIds;
    FirstAxisFits(-1);
    FirstAxisFits(2);
    var x, y, z := Saves(FirstAxis(-1)), Rereads, Saves(FirstAxis(2));
    assert [x][..0] == [] && [x, y][..1] == [x] && [x, y, z][..2] == [x, y];
    assert TableAfter([], [x]) == Save([], FirstAxis(-1));
    assert TableAfter([], [x, y]) == RememberFrom(Text(Save([], FirstAxis(-1))), Start());
  }

  // ---- a save of the defaults -----------------------------------------------------------------------

  /**
   The user's own lines that stay in the file when the whole configuration returns to its
   defaults; a common dead-zone line stays whoever wrote it.
   */
  predicate Lingers(k: Key, own: bool) {
    || k.DeadZone?
    || (!own && (k.Hold? || k.Led? || k.Grab? || k.SensTrans? || k.SensRot? || k.DeadZoneN?))
  }

  /**
   A save of the default configuration adds no line, and of the lines that hold an option, where
   none of the same name was refused, it removes all but those.
   */
  lemma DefaultKeeps(lines: seq<Line>, k: Key)
    requires Shape(lines) && Settable(k) && !RefusedLeft(lines, DefaultCfg(1.0), k)
    ensures var slot := Slot(lines, k);
            Slot(Save(lines, DefaultCfg(1.0)), k) ==
              if slot.Some? && Lingers(k, slot.value.own) then slot else None
  {
    hide Shape, Save, RefusedLeft, Slot, Printable, DefaultCfg, Decided, OwnOnly, Wanted;
    DefaultPrintable();
    SaveSlot(lines, DefaultCfg(1.0), k);
    DefaultUnwanted(k);
  }

  lemma DefaultUnwanted(k: Key)
    requires Settable(k)
    ensures var c := DefaultCfg<real>(1.0);
            && Wanted(c, k) == None && (Decided(c, k) <==> !k.DeadZone?)
            && (!k.DeadZone? ==> (OwnOnly(c, k) <==> Lingers(k, false)))
  {
    hide Wanted, OwnOnly, Lingers, Uniform;
    DefaultUneven();
    DefaultNone(k);
    DefaultOwn(k);
  }

  lemma DefaultNone(k: Key)
    requires Settable(k)
    ensures Wanted(DefaultCfg<real>(1.0), k) == None
  {
    hide Uniform, Float3, Dec, Flags, BnactName;
    DefaultUneven();
  }

  lemma DefaultOwn(k: Key)
    requires Settable(k)
    ensures !k.DeadZone? ==> (OwnOnly(DefaultCfg<real>(1.0), k) <==> Lingers(k, false))
  {
    hide Uniform;
    DefaultUneven();
  }
}
