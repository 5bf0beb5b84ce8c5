/**
 What a save leaves alone in a table read from a user's file, and that saving
 the same configuration twice changes nothing the second time.
 */
module CfgForeign {
  import opened Basics
  import opened CText
  import opened Config
  import opened CfgKeys
  import opened CfgTable
  import opened CfgWrite
  import opened CfgRead
  import opened CfgSave

  /** The option read_cfg finds in a text; None for comments, blanks, incomplete and unrecognised lines. */
  function OptionOf(t: string): Option<Key> {
    match Tokens(t)
    case None => None
    case Some((name, _)) => ParseKey(name)
  }

  /**
   A line of the user's own: read_cfg finds no option in it, or one that write_cfg does not
   handle, and it is not of the form write_cfg takes for one of its options.
   */
  ghost predicate Foreign(l: Line) {
    && l.text.Some?
    && (if l.tag == Repeat then OptionOf(l.text.value) == None else !Saved(l.tag))
    && forall k :: Single(k) ==> !Named(l, KeyText(k))
  }

  // the line does not react to the step
  predicate Immune(op: Op, l: Line) { Hit(op, l) ==> Edit(op, l) == l }

  lemma ApplyAt(op: Op, lines: seq<Line>, i: nat)
    requires i < |lines| && Immune(op, lines[i])
    ensures |Apply(op, lines)| >= |lines| && Apply(op, lines)[i] == lines[i]
  {
    hide Hit, Edit, Append;
    FindIsFirst(op, lines);
  }

  lemma {:induction false} RunImmune(lines: seq<Line>, ops: seq<Op>, i: nat)
    requires i < |lines| && forall op :: op in ops ==> Immune(op, lines[i])
    ensures |Run(lines, ops)| >= |lines| && Run(lines, ops)[i] == lines[i]
  {
    hide Immune, Apply;
    if ops != [] {
      RunImmune(lines, ops[..|ops| - 1], i);
      ApplyAt(ops[|ops| - 1], Run(lines, ops[..|ops| - 1]), i);
    }
  }

  predicate IsPutRepeat(op: Op) { op.Put? && op.key == Repeat }

  lemma ForeignImmune(op: Op, l: Line)
    requires Foreign(l) && (op.PutDev? || Single(op.key)) && !IsPutRepeat(op)
    ensures Immune(op, l)
  {
    hide Named, KeyText, ScanDevId;
    if op.PutDev? { DevTagged(l); }
  }

  // a line tagged and named repeat-interval reacts to no other option
  lemma RepeatImmune(op: Op, l: Line)
    requires l.tag == Repeat && Named(l, KeyText(Repeat)) && (op.PutDev? || Single(op.key)) && !Touches(op, Repeat)
    ensures Immune(op, l)
  {
    hide KeyText, ScanDevId, RmName;
    if op.PutDev? { DevTagged(l); }
    if op.Del? && Named(l, KeyText(op.key)) { KeyTextInjective(op.key, Repeat); }
  }

  // no step but setting repeat-interval produces a line with that tag
  lemma ApplyNoNew(op: Op, lines: seq<Line>, i: nat)
    requires !IsPutRepeat(op) && (op.PutDev? || Single(op.key))
    requires i < |Apply(op, lines)| && Tagged(Apply(op, lines)[i], Repeat)
    ensures i < |lines| && Tagged(lines[i], Repeat) && Apply(op, lines)[i] == lines[i]
  {
    hide Named, KeyText, DevOf, LineOf, Clip, DevIdText;
    FindIsFirst(op, lines);
  }

  lemma {:induction false} RunNoNew(lines: seq<Line>, ops: seq<Op>, i: nat)
    requires forall op :: op in ops ==> !IsPutRepeat(op) && (op.PutDev? || Single(op.key))
    requires i < |Run(lines, ops)| && Tagged(Run(lines, ops)[i], Repeat)
    ensures i < |lines| && Tagged(lines[i], Repeat) && Run(lines, ops)[i] == lines[i]
  {
    hide Apply, Tagged, Single;
    if ops != [] {
      ApplyNoNew(ops[|ops| - 1], Run(lines, ops[..|ops| - 1]), i);
      RunNoNew(lines, ops[..|ops| - 1], i);
    }
  }

  // ---- the script around repeat-interval ----------------------------------------------

  ghost predicate NoRepeat(ops: seq<Op>) {
    forall op :: op in ops ==> op.PutDev? || (Single(op.key) && op.key != Repeat)
  }

  lemma NoRepeatConcat(a: seq<Op>, b: seq<Op>)
    requires NoRepeat(a) && NoRepeat(b)
    ensures NoRepeat(a + b)
  {
    hide Single;
  }

  lemma AxisNoRepeat(v: seq<real>, rot: bool, a: nat)
    requires |v| == 3 && a < 3
    ensures NoRepeat(AxisOps(v, rot, a))
  {
    hide Float3;
  }

  lemma TriNoRepeat(v: seq<real>, rot: bool)
    requires |v| == 3
    ensures NoRepeat(TriOps(v, rot))
  {
    hide Float3, AxisOps;
    if !All3(v) {
      hide NoRepeat;
      AxisNoRepeat(v, rot, 0);
      AxisNoRepeat(v, rot, 1);
      AxisNoRepeat(v, rot, 2);
      NoRepeatConcat(AxisOps(v, rot, 0), AxisOps(v, rot, 1));
      NoRepeatConcat(AxisOps(v, rot, 0) + AxisOps(v, rot, 1), AxisOps(v, rot, 2));
    }
  }

  lemma NoRepeatNothing()
    ensures NoRepeat([])
  {
  }

  lemma DeadAxisNoRepeat(d: seq<int>, i: nat)
    requires i < |d| == MAX_AXES
    ensures NoRepeat(DeadAxisOps(d, i))
  {
    hide Dec, DefaultDeadAt;
  }

  lemma {:induction false} DeadEachNoRepeat(d: seq<int>, n: nat)
    requires n <= |d| == MAX_AXES
    ensures NoRepeat(DeadEach(d, n))
  {
    hide DeadAxisOps, NoRepeat;
    if n == 0 {
      NoRepeatNothing();
    } else {
      DeadEachNoRepeat(d, n - 1);
      DeadAxisNoRepeat(d, n - 1);
      NoRepeatConcat(DeadEach(d, n - 1), DeadAxisOps(d, n - 1));
    }
  }

  lemma {:induction false} RemoveDeadNoRepeat(n: nat)
    requires n <= MAX_AXES
    ensures NoRepeat(RemoveDeadN(n))
  {
    if n > 0 { RemoveDeadNoRepeat(n - 1); }
  }

  lemma {:induction false} FamilyNoRepeat(c: Cfg<real>, f: Family, n: nat)
    requires c.Shaped() && n <= 64
    ensures NoRepeat(FamilyOps(c, f, n))
  {
    hide Set;
    if n > 0 {
      FamilyNoRepeat(c, f, n - 1);
      SetKey(c, Member(f, n - 1), false);
    }
  }

  lemma ListNoRepeat(c: Cfg<real>, ops: seq<Op>, ks: seq<Key>)
    requires c.Shaped() && |ops| == |ks|
    requires forall i :: 0 <= i < |ks| ==>
               Single(ks[i]) && ks[i] != Repeat && (ops[i] == Set(c, ks[i], true) || ops[i] == Set(c, ks[i], false))
    ensures NoRepeat(ops)
  {
    hide Set;
    forall i | 0 <= i < |ks| ensures !ops[i].PutDev? && ops[i].key == ks[i] {
      SetKey(c, ks[i], true);
      SetKey(c, ks[i], false);
    }
  }

  lemma {:induction false} DevsNoRepeat(c: Cfg<real>, ds: seq<(int, int)>)
    requires c.Shaped()
    ensures NoRepeat(DevOps(ds))
  {
    DevOpsAgree(c, ds);
  }

  // everything after the repeat-interval step
  function LastOps(c: Cfg<real>): seq<Op>
    requires c.Shaped()
  {
    [Set(c, Hold, true), Set(c, InvTrans, false), Set(c, InvRot, false), Set(c, SwapYZ, false)] +
    FamiliesOps(c) + DeviceOps(c)
  }

  lemma FirstNoRepeat(c: Cfg<real>)
    requires c.Shaped()
    ensures NoRepeat(FirstOps(c))
  {
    hide Set, TriOps, DeadOps, NoRepeat;
    var s, t, r := [Set(c, Sens, false)], TriOps(c.sensTrans, false), TriOps(c.sensRot, true);
    ListNoRepeat(c, s, [Sens]);
    TriNoRepeat(c.sensTrans, false);
    TriNoRepeat(c.sensRot, true);
    DeadNoRepeat(c.dead);
    NoRepeatConcat(s, t);
    NoRepeatConcat(s + t, r);
    NoRepeatConcat(s + t + r, DeadOps(c.dead));
  }

  lemma DeadNoRepeat(d: seq<int>)
    requires |d| == MAX_AXES
    ensures NoRepeat(DeadOps(d))
  {
    hide DeadEach, RemoveDeadN, Uniform, Dec;
    DeadEachNoRepeat(d, MAX_AXES);
    RemoveDeadNoRepeat(MAX_AXES);
  }

  lemma LastNoRepeat(c: Cfg<real>)
    requires c.Shaped()
    ensures NoRepeat(LastOps(c))
  {
    hide Set, FamilyOps, DevOps, NoRepeat;
    var f := [Set(c, Hold, true), Set(c, InvTrans, false), Set(c, InvRot, false), Set(c, SwapYZ, false)];
    ListNoRepeat(c, f, [Hold, InvTrans, InvRot, SwapYZ]);
    var a, b, h, t, y := FamilyOps(c, Axes, 64), FamilyOps(c, Buttons, 64), FamilyOps(c, Holds, 64),
                         FamilyOps(c, Actions, 64), FamilyOps(c, Keyboard, 64);
    FamilyNoRepeat(c, Axes, 64);
    FamilyNoRepeat(c, Buttons, 64);
    FamilyNoRepeat(c, Holds, 64);
    FamilyNoRepeat(c, Actions, 64);
    FamilyNoRepeat(c, Keyboard, 64);
    NoRepeatConcat(a, b);
    NoRepeatConcat(a + b, h);
    NoRepeatConcat(a + b + h, t);
    NoRepeatConcat(a + b + h + t, y);
    var l := [Set(c, Led, true), Set(c, Grab, true), Set(c, Serial, false)];
    ListNoRepeat(c, l, [Led, Grab, Serial]);
    DevsNoRepeat(c, c.devid);
    ListNoRepeat(c, [Set(c, SockPath, false)], [SockPath]);
    NoRepeatConcat(l, DevOps(c.devid));
    NoRepeatConcat(l + DevOps(c.devid), [Set(c, SockPath, false)]);
    NoRepeatConcat(f, FamiliesOps(c));
    NoRepeatConcat(f + FamiliesOps(c), DeviceOps(c));
  }

  lemma ScriptSplit(lines: seq<Line>, c: Cfg<real>)
    requires c.Shaped()
    ensures Script(c) == FirstOps(c) + [Set(c, Repeat, false)] + LastOps(c)
    ensures Save(lines, c) == Run(Apply(Set(c, Repeat, false), Run(lines, FirstOps(c))), LastOps(c))
  {
    hide Set, Run, FirstOps, FamiliesOps, DeviceOps, Apply;
    assert FlagOps(c) ==
           [Set(c, Repeat, false)]
           + [Set(c, Hold, true), Set(c, InvTrans, false), Set(c, InvRot, false), Set(c, SwapYZ, false)];
    assert Script(c) == FirstOps(c) + [Set(c, Repeat, false)] + LastOps(c);
    RunConcat(lines, FirstOps(c) + [Set(c, Repeat, false)], LastOps(c));
    RunSnoc(lines, FirstOps(c), Set(c, Repeat, false));
  }

  // ---- foreign lines --------------------------------------------------------------------

  // the first live line tagged repeat-interval, counting untagged lines
  function FirstRepeat(lines: seq<Line>): Option<nat> { Find(Put(Repeat, ""), lines) }

  /** Repeat is off, or the first line tagged with it when its step comes is no foreign one. */
  ghost predicate RepeatSafe(lines: seq<Line>, c: Cfg<real>)
    requires c.Shaped()
  {
    c.repeat == -1 ||
    var before := Run(lines, FirstOps(c));
    match FirstRepeat(before)
    case None => true
    case Some(j) => j < |before| && !Foreign(before[j])
  }

  lemma ForeignKept(lines: seq<Line>, c: Cfg<real>, i: nat)
    requires c.Shaped() && RepeatSafe(lines, c) && i < |lines| && Foreign(lines[i])
    ensures |Save(lines, c)| >= |lines| && Save(lines, c)[i] == lines[i]
  {
    hide Save, Run, FirstOps, LastOps, Set, Named, KeyText, Foreign, FirstRepeat, Dec;
    FirstNoRepeat(c);
    LastNoRepeat(c);
    ScriptSplit(lines, c);
    var before, op := Run(lines, FirstOps(c)), Set(c, Repeat, false);
    forall o | o in FirstOps(c) || o in LastOps(c) ensures Immune(o, lines[i]) { ForeignImmune(o, lines[i]); }
    RunImmune(lines, FirstOps(c), i);
    RepeatStepKeeps(before, c, i);
    RunImmune(Apply(op, before), LastOps(c), i);
  }

  lemma RepeatStepKeeps(before: seq<Line>, c: Cfg<real>, i: nat)
    requires c.Shaped() && i < |before| && Foreign(before[i]) && (c.repeat == -1 || FirstRepeat(before) != Some(i))
    ensures var after := Apply(Set(c, Repeat, false), before);
            |after| >= |before| && after[i] == before[i]
  {
    hide Foreign, KeyText, Dec, Named;
    var op := Set(c, Repeat, false);
    FindIsFirst(op, before);
    FindIsFirst(Put(Repeat, ""), before);
    if op.Del? {
      ForeignImmune(op, before[i]);
      ApplyAt(op, before, i);
    }
  }

  // setting repeat-interval takes the first line tagged with it
  lemma FirstTaken(before: seq<Line>, c: Cfg<real>) returns (j: nat)
    requires c.Shaped() && c.repeat != -1 && FirstRepeat(before).Some?
    ensures j < |before| && FirstRepeat(before) == Some(j) && Tagged(before[j], Repeat)
    ensures var after := Apply(Set(c, Repeat, false), before);
            |after| == |before| && after[j].tag == Repeat && Named(after[j], KeyText(Repeat))
  {
    hide Named, KeyText, Dec;
    var op := Set(c, Repeat, false);
    FindIsFirst(Put(Repeat, ""), before);
    FindIsFirst(op, before);
    j := FirstRepeat(before).value;
    PutNames(Apply(op, before)[j], op.val);
  }

  /** When repeat is not safe, the line its step finds is foreign, and is overwritten. */
  lemma ForeignOverwritten(lines: seq<Line>, c: Cfg<real>) returns (j: nat)
    requires c.Shaped() && !RepeatSafe(lines, c)
    ensures j < |lines| && j < |Save(lines, c)| && Foreign(lines[j]) && Save(lines, c)[j] != lines[j]
  {
    hide Run, FirstOps, LastOps, Named, KeyText, Dec, Save, Foreign, Apply, Immune, Set;
    FirstNoRepeat(c);
    LastNoRepeat(c);
    ScriptSplit(lines, c);
    var before := Run(lines, FirstOps(c));
    FindIsFirst(Put(Repeat, ""), before);
    j := FirstTaken(before, c);
    RunNoNew(lines, FirstOps(c), j);
    var after := Apply(Set(c, Repeat, false), before);
    forall o | o in LastOps(c) ensures Immune(o, after[j]) { RepeatImmune(o, after[j]); }
    RunImmune(after, LastOps(c), j);
    ForeignUnnamed(lines[j]);
  }

  lemma ForeignUnnamed(l: Line)
    requires Foreign(l)
    ensures !Named(l, KeyText(Repeat))
  {
    hide Named, KeyText, OptionOf;
    assert Single(Repeat);
  }

  lemma PutNames(l: Line, v: string)
    requires l.text == Some(Clip(LineOf(Repeat, v)))
    ensures Named(l, KeyText(Repeat))
  {
    hide RmName, KeyText, LineOf, Clip;
    NamedLine(Repeat, v);
  }

  /**
   Every line of the user's own keeps its place and text through a save exactly when repeat
   is off or the first line tagged with it is no such line. The tag of repeat-interval is 0,
   the tag of lines that were never tagged.
   */
  lemma SaveKeepsForeign(lines: seq<Line>, c: Cfg<real>)
    requires c.Shaped()
    ensures |Save(lines, c)| >= |lines|
    ensures (forall i :: 0 <= i < |lines| && Foreign(lines[i]) ==> Save(lines, c)[i] == lines[i]) <==>
              RepeatSafe(lines, c)
  {
    hide Save, Foreign, RepeatSafe, FirstOps;
    SaveGrows(lines, c);
    if RepeatSafe(lines, c) {
      forall i | 0 <= i < |lines| && Foreign(lines[i])
        ensures Save(lines, c)[i] == lines[i]
      {
        ForeignKept(lines, c, i);
      }
    } else {
      var j := ForeignOverwritten(lines, c);
    }
  }

  // ---- the user's own lines in a file ---------------------------------------------------------

  // the first character after the indentation is '#'
  predicate Comment(t: string) { Span(t, Indent) < |t| && t[Span(t, Indent)] == '#' }

  predicate BlankText(t: string) { Span(t, Indent) == |t| }

  // a name read_cfg does not know, on a line without other white space than blanks and tabs
  predicate Unknown(t: string) {
    && Tokens(t).Some? && ParseKey(Tokens(t).value.0) == None
    && forall i :: 0 <= i < |t| && IsSpace(t[i]) ==> t[i] == ' ' || t[i] == '\t'
  }

  /** A comment, a blank or an unrecognised line. */
  predicate Unread(t: string) { Comment(t) || BlankText(t) || Unknown(t) }

  lemma TrimEndKeeps(s: string)
    ensures s != "" && !IsSpace(s[0]) ==> TrimEnd(s) != "" && TrimEnd(s)[0] == s[0]
    ensures forall i :: |TrimEnd(s)| <= i < |s| ==> IsSpace(s[i])
  {
    if s != "" && IsSpace(s[|s| - 1]) { TrimEndKeeps(s[..|s| - 1]); }
  }

  // what rm_cfgopt compares starts where the line's text starts
  lemma RmNameStart(t: string, n: nat)
    requires n < |t| && (forall i :: 0 <= i < n ==> IsSpace(t[i])) && !IsSpace(t[n]) && t[n] != '='
    ensures RmName(t).Some? ==> RmName(t).value != "" && RmName(t).value[0] == t[n]
  {
    hide TrimEnd;
    var b := if |t| > 255 then t[..255] else t;
    if n < |b| {
      SpanIs(b, Space, n);
      var p := b[n..];
      if IndexOf(p, '=').Some? { TrimEndKeeps(p[..IndexOf(p, '=').value]); }
    } else {
      SpanIs(b, Space, |b|);
      assert b[|b|..] == "";
    }
  }

  lemma CommentUnread(t: string)
    requires Comment(t)
    ensures OptionOf(t) == None && forall k :: Single(k) ==> RmName(t) != Some(KeyText(k))
  {
    hide RmName, KeyText;
    RmNameStart(t, Span(t, Indent));
    forall k | Single(k) ensures RmName(t) != Some(KeyText(k)) { KeyTextIsName(k); }
  }

  lemma BlankUnread(t: string)
    requires BlankText(t)
    ensures OptionOf(t) == None && RmName(t) == None
  {
    var b := if |t| > 255 then t[..255] else t;
    SpanIs(b, Space, |b|);
    assert b[|b|..] == "";
  }

  lemma TrimmedName(p: string, e: nat, name: string)
    requires Name(name) && e < |p| && p[e] == '='
    requires name == if e == 0 || !IsSpace(p[e - 1]) then p else TrimEnd(p[..e])
    ensures |name| < |p| && p[..|name|] == name && IsSpace(p[|name|])
  {
    hide TrimEnd;
    assert IsSep(p[e]) && p != name;
    var q := p[..e];
    TrimEndKeeps(q);
    assert IsSpace(q[|q| - 1]) && q != name;
    assert q[..|name|] == name;
    assert p[..|name|] == q[..|name|] && p[|name|] == q[|name|];
  }

  // the line starts with the name rm_cfgopt compares, and white space follows
  lemma RmNameParts(t: string, name: string) returns (n: nat)
    requires Name(name) && RmName(t) == Some(name)
    ensures n + |name| < |t| && t[n..n + |name|] == name && IsSpace(t[n + |name|])
    ensures forall i :: 0 <= i < n ==> IsSpace(t[i])
  {
    hide TrimEnd, Name, Span, IndexOf;
    var b := if |t| > 255 then t[..255] else t;
    n := Span(b, Space);
    var p := b[n..];
    TrimmedName(p, IndexOf(p, '=').value, name);
    assert t[n..n + |name|] == p[..|name|] && t[n + |name|] == p[|name|];
  }

  // which then is the name read_cfg takes
  lemma SameName(t: string, k: Key)
    requires Unknown(t) && Single(k)
    ensures RmName(t) != Some(KeyText(k))
  {
    hide KeyText, ParseKey, RmName, Tokens;
    if RmName(t) == Some(KeyText(k)) {
      KeyTextIsName(k);
      ParseOfKeyText(k);
      var n := RmNameParts(t, KeyText(k));
      FirstToken(t, n, KeyText(k));
    }
  }

  lemma FirstToken(t: string, n: nat, name: string)
    requires Name(name) && n + |name| < |t| && t[n..n + |name|] == name && IsSpace(t[n + |name|])
    requires forall i :: 0 <= i < n ==> IsSpace(t[i])
    requires forall i :: 0 <= i < |t| && IsSpace(t[i]) ==> t[i] == ' ' || t[i] == '\t'
    ensures Tokens(t).Some? ==> Tokens(t).value.0 == name
  {
    hide Strtok;
    assert t[n] == name[0] && !IsSpace(name[0]);
    SpanIs(t, Indent, n);
    var rest := t[n + |name|..];
    assert t[n..] == "" + name + rest;
    StrtokIs("", name, rest);
  }

  /** Comments, blanks and lines with a name read_cfg does not know are the user's own, whatever was read before. */
  lemma UnreadForeign(t: string, st: Reader)
    requires st.Valid() && Unread(t)
    ensures OptionOf(t) == None && Foreign(Line(Some(t), ParseLine(t, st).tag, false))
  {
    hide RmName, KeyText, ParseKey, ParseOption, Tokens;
    if Comment(t) {
      CommentUnread(t);
    } else if BlankText(t) {
      BlankUnread(t);
    } else {
      forall k | Single(k) ensures RmName(t) != Some(KeyText(k)) { SameName(t, k); }
    }
  }

  lemma {:induction false} RememberedLine(text: string, st: Reader, i: nat) returns (before: Reader)
    requires st.Valid() && i < |RememberFrom(text, st)|
    ensures before.Valid() && RememberFrom(text, st)[i].text.Some?
    ensures var t := RememberFrom(text, st)[i].text.value;
            RememberFrom(text, st)[i] == Line(Some(t), ParseLine(t, before).tag, false)
    decreases |text|
  {
    hide ParseLine, Chop, FgetsLength;
    var n := FgetsLength(text);
    if i == 0 {
      before := st;
    } else {
      before := RememberedLine(text[n..], ParseLine(Chop(text[..n]), st).st, i - 1);
    }
  }

  /**
   Over the table of a file just read: the comments, blanks and unrecognised lines are
   among the lines of the user's own, and these all survive a save exactly if it is safe.
   */
  lemma SaveKeepsComments(text: string, c: Cfg<real>)
    requires c.Shaped()
    ensures var lines := RememberFrom(text, Start());
            && (forall l :: l in lines ==> l.text.Some? && (Unread(l.text.value) ==> Foreign(l)))
            && |Save(lines, c)| >= |lines|
            && ((forall i :: 0 <= i < |lines| && Foreign(lines[i]) ==> Save(lines, c)[i] == lines[i]) <==>
                  RepeatSafe(lines, c))
  {
    hide RememberFrom, Save, Foreign, RepeatSafe, Unread, ParseLine;
    var lines := RememberFrom(text, Start());
    SaveKeepsForeign(lines, c);
    forall l | l in lines ensures l.text.Some? && (Unread(l.text.value) ==> Foreign(l)) {
      var i :| 0 <= i < |lines| && lines[i] == l;
      var before := RememberedLine(text, Start(), i);
      if Unread(l.text.value) { UnreadForeign(l.text.value, before); }
    }
  }

  lemma {:induction false} RunGrows(lines: seq<Line>, ops: seq<Op>)
    ensures |Run(lines, ops)| >= |lines|
  {
    hide Hit, Edit, Append;
    if ops != [] {
      RunGrows(lines, ops[..|ops| - 1]);
      FindIsFirst(ops[|ops| - 1], Run(lines, ops[..|ops| - 1]));
    }
  }

  lemma SaveGrows(lines: seq<Line>, c: Cfg<real>)
    requires c.Shaped()
    ensures |Save(lines, c)| >= |lines|
  {
    hide Script, Run;
    RunGrows(lines, Script(c));
  }

  // ---- lines a default does not remove --------------------------------------------------------

  /**
   hold-timeout, led and grab, the sensitivities and the dead zones are removed only from
   the daemon's own lines, the latter two as one line or one line for each axis, whichever
   the values call for. In a table read from a file no line is the daemon's own, so
   returning such an option to its default leaves the user's line, and a reload takes its
   value again.
   */
  lemma UserLineStays(lines: seq<Line>, c: Cfg<real>, i: nat)
    requires c.Shaped() && i < |lines|
    requires var l := lines[i];
             && Single(l.tag) && OwnOnly(c, l.tag)
             && Named(l, KeyText(l.tag)) && !l.own
             && Wanted(c, l.tag) == None
    ensures i < |Save(lines, c)| && Save(lines, c)[i] == lines[i]
  {
    hide Run, Named, KeyText, Wanted, Script, Agrees, Immune;
    ScriptAgrees(c);
    forall op | op in Script(c) ensures Immune(op, lines[i]) { UserLineImmune(op, c, lines[i]); }
    RunImmune(lines, Script(c), i);
  }

  lemma UserLineImmune(op: Op, c: Cfg<real>, l: Line)
    requires c.Shaped() && Agrees(op, c) && Single(l.tag) && OwnOnly(c, l.tag)
    requires Named(l, KeyText(l.tag)) && !l.own && Wanted(c, l.tag) == None
    ensures Immune(op, l)
  {
    hide KeyText, RmName, ScanDevId, Wanted, LineOf, Clip, OwnOnly;
    if op.PutDev? { DevTagged(l); }
    if op.Del? && Named(l, KeyText(op.key)) { KeyTextInjective(op.key, l.tag); }
  }

  // ---- saving twice -------------------------------------------------------------------------------

  // the step finds nothing to change
  lemma Settled(op: Op, lines: seq<Line>)
    requires Tidy(lines) && Proper(op)
    requires if op.PutDev? then (ToUint(op.vid), ToUint(op.pid)) in Devs(lines) else Lookup(lines, op.key) == Result(op)
    ensures Apply(op, lines) == lines
  {
    match op
    case Put(k, v) => SettledPut(op, lines);
    case Del(k, _) => SettledDel(op, lines);
    case PutDev(_, _) => SettledDev(op, lines);
  }

  lemma SettledPut(op: Op, lines: seq<Line>)
    requires Tidy(lines) && Proper(op) && op.Put? && Lookup(lines, op.key) == Result(op)
    ensures Apply(op, lines) == lines
  {
    hide Tidy, LineOf, Clip;
    var i := LookupHolder(lines, op.key);
    FindIsFirst(op, lines);
    FindIsFirst(Put(op.key, ""), lines);
    var j := Find(op, lines).value;
    assert Find(Put(op.key, ""), lines) == Some(j);
  }

  lemma SettledDel(op: Op, lines: seq<Line>)
    requires Tidy(lines) && Proper(op) && op.Del? && Lookup(lines, op.key) == None
    ensures Apply(op, lines) == lines
  {
    hide TidyLine, Named, KeyText, Lookup;
    FindIsFirst(op, lines);
    if Find(op, lines).Some? {
      var l := lines[Find(op, lines).value];
      if l.text.Some? {
        NameIsTag(l, op.key);
        LookupIs(lines, op.key, Find(op, lines).value);
      } else {
        NoText(l, KeyText(op.key));
      }
    } else {
      assert lines + [] == lines;
    }
  }

  lemma SettledDev(op: Op, lines: seq<Line>)
    requires Tidy(lines) && op.PutDev? && (ToUint(op.vid), ToUint(op.pid)) in Devs(lines)
    ensures Apply(op, lines) == lines
  {
    hide LineOf, DevIdText, ToUint, DevOf, Named;
    DevsMember(lines, (ToUint(op.vid), ToUint(op.pid)));
    FindIsFirst(op, lines);
    var j := Find(op, lines).value;
    DevTagged(lines[j]);
    DevIdTextOfUint(op.vid, op.pid);
    assert TidyLine(lines[j]);
  }

  lemma {:induction false} AddAllHas(ds: seq<(nat, nat)>, devid: seq<(int, int)>, op: Op)
    requires op.PutDev? && ((ToUint(op.vid), ToUint(op.pid)) in ds || op in DevOps(devid))
    ensures (ToUint(op.vid), ToUint(op.pid)) in AddAll(ds, devid)
  {
    hide ToUint;
    if devid != [] {
      var pre := devid[..|devid| - 1];
      if (ToUint(op.vid), ToUint(op.pid)) in ds || op in DevOps(pre) { AddAllHas(ds, pre, op); }
    }
  }

  // device steps come from the device list only
  lemma ScriptDevOps(c: Cfg<real>, op: Op)
    requires c.Shaped() && op in Script(c) && op.PutDev?
    ensures op in DevOps(c.devid)
  {
    hide Set, TriOps, DeadOps, FlagOps, FamiliesOps, DevOps, NoDev;
    HeadAgree(c);
    DeadKeys(c.dead);
    FlagAgree(c);
    FamiliesAgree(c);
    var a, z := [Set(c, Led, true), Set(c, Grab, true), Set(c, Serial, false)], [Set(c, SockPath, false)];
    ListAgree(c, a, [Led, Grab, Serial]);
    ListAgree(c, z, [SockPath]);
    NoDevOp(HeadOps(c), op);
    NoDevOp(DeadOps(c.dead), op);
    NoDevOp(FlagOps(c), op);
    NoDevOp(FamiliesOps(c), op);
    NoDevOp(a, op);
    NoDevOp(z, op);
    assert Script(c) == HeadOps(c) + DeadOps(c.dead) + FlagOps(c) + FamiliesOps(c) + (a + DevOps(c.devid) + z);
  }

  lemma NoDevOp(ops: seq<Op>, op: Op)
    requires NoDev(ops) && op.PutDev?
    ensures op !in ops
  {
  }

  lemma {:induction false} RunSettled(lines: seq<Line>, ops: seq<Op>)
    requires forall op :: op in ops ==> Apply(op, lines) == lines
    ensures Run(lines, ops) == lines
  {
    hide Apply;
    if ops != [] { RunSettled(lines, ops[..|ops| - 1]); }
  }

  /** Saving a configuration a second time leaves the table, and so the file, as it is. */
  lemma SaveTwice(lines: seq<Line>, e: Effective, c: Cfg<real>)
    requires StandsFor(lines, e) && c.Shaped()
    ensures Save(Save(lines, c), c) == Save(lines, c)
  {
    hide StandsFor, After, Script, Agrees, AddAll, Run;
    var after := Save(lines, c);
    SaveStep(lines, e, c);
    ScriptAgrees(c);
    forall op | op in Script(c) ensures Apply(op, after) == after { SettledStep(lines, e, c, op); }
    RunSettled(after, Script(c));
  }

  lemma SettledStep(lines: seq<Line>, e: Effective, c: Cfg<real>, op: Op)
    requires StandsFor(lines, e) && c.Shaped() && op in Script(c) && Agrees(op, c)
    requires StandsFor(Save(lines, c), After(e, c))
    ensures Apply(op, Save(lines, c)) == Save(lines, c)
  {
    hide Script, Tidy, Lookup, Devs, AddAll, WantedText, Save, Apply, Decided, Result;
    if op.PutDev? {
      ScriptDevOps(c, op);
      AddAllHas(e.devs, c.devid, op);
    } else {
      ScriptAgrees(c);
      assert Covers(Script(c), op.key) by { assert Touches(op, op.key); }
      SaveLookup(lines, e, c, op.key);
    }
    Settled(op, Save(lines, c));
  }
}
