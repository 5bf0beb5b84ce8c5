/**
 What every request does, told field by field: when it is accepted, which setting it
 changes to what, and what it answers. Requests are given by their numbers.
 */
module RequestEffects {
  import opened Basics
  import opened Config
  import opened Requests
  import Connections
  import StringTransfer

  // ---- the record a set request leaves ----------------------------------------------------

  /** What is written determines the settings afterwards. */
  lemma WroteOnce(pre: View, a: View, b: View, names: KeyNames, writes: map<Cell, int>)
    requires pre.Valid() && a.Valid() && b.Valid()
    requires Wrote(pre, a, names, writes) && Wrote(pre, b, names, writes)
    ensures a == b
  {
    hide Wrote;
    SameValues(pre, a, b, names, writes);
    SameKeys(pre, a, b, names, writes);
    SameScalars(a, b);
    SameAxes(a, b);
    SameMaps(a, b);
    assert SameRest(pre, a) && SameRest(pre, b) by { RestOf(pre, a, names, writes); RestOf(pre, b, names, writes); }
  }

  ghost predicate Alike(a: View, b: View)
    requires a.Valid() && b.Valid()
  {
    forall c: Cell :: c.Ok() ==> Value(a, c) == Value(b, c)
  }

  lemma SameValues(pre: View, a: View, b: View, names: KeyNames, writes: map<Cell, int>)
    requires pre.Valid() && a.Valid() && b.Valid()
    requires Wrote(pre, a, names, writes) && Wrote(pre, b, names, writes)
    ensures Alike(a, b)
  {
    hide Value, NamedKey, SameRest, Cell.Ok;
  }

  lemma RestOf(pre: View, a: View, names: KeyNames, writes: map<Cell, int>)
    requires pre.Valid() && a.Valid() && Wrote(pre, a, names, writes)
    ensures SameRest(pre, a)
  {
    hide Value, NamedKey, Cell.Ok, SameRest;
  }

  lemma SameKeys(pre: View, a: View, b: View, names: KeyNames, writes: map<Cell, int>)
    requires pre.Valid() && a.Valid() && b.Valid() && Alike(a, b)
    requires Wrote(pre, a, names, writes) && Wrote(pre, b, names, writes)
    ensures a.keys == b.keys && a.cfg.kbmapStr == b.cfg.kbmapStr
  {
    hide SameRest;
    forall i | 0 <= i < MAX_BUTTONS ensures a.keys[i] == b.keys[i] && a.cfg.kbmapStr[i] == b.cfg.kbmapStr[i] {
      assert KeyMap(i).Ok() && Value(a, KeyMap(i)) == Value(b, KeyMap(i));
    }
  }

  lemma SameScalars(a: View, b: View)
    requires a.Valid() && b.Valid() && Alike(a, b)
    ensures a.sens == b.sens && a.evmask == b.evmask && a.cfg.sensitivity == b.cfg.sensitivity
    ensures a.cfg.swapyz == b.cfg.swapyz && a.cfg.led == b.cfg.led && a.cfg.grab == b.cfg.grab
    ensures a.cfg.repeat == b.cfg.repeat
  {
    assert Value(a, ClientSens) == Value(b, ClientSens) && Value(a, EventMask) == Value(b, EventMask);
    assert Value(a, Sens) == Value(b, Sens) && Value(a, SwapYZ) == Value(b, SwapYZ);
    assert Value(a, Led) == Value(b, Led) && Value(a, Grab) == Value(b, Grab) && Value(a, Repeat) == Value(b, Repeat);
  }

  lemma SameAxes(a: View, b: View)
    requires a.Valid() && b.Valid() && Alike(a, b)
    ensures a.cfg.sensTrans == b.cfg.sensTrans && a.cfg.sensRot == b.cfg.sensRot && a.cfg.invert == b.cfg.invert
  {
    forall i | 0 <= i < 3 ensures a.cfg.sensTrans[i] == b.cfg.sensTrans[i] && a.cfg.sensRot[i] == b.cfg.sensRot[i] {
      assert Value(a, AxisSens(i)) == Value(b, AxisSens(i)) && Value(a, AxisSens(i + 3)) == Value(b, AxisSens(i + 3));
    }
    forall i | 0 <= i < 6 ensures a.cfg.invert[i] == b.cfg.invert[i] {
      assert Value(a, Invert(i)) == Value(b, Invert(i));
    }
  }

  lemma SameMaps(a: View, b: View)
    requires a.Valid() && b.Valid() && Alike(a, b)
    ensures a.cfg.dead == b.cfg.dead && a.cfg.mapAxis == b.cfg.mapAxis
    ensures a.cfg.mapButton == b.cfg.mapButton && a.cfg.bnact == b.cfg.bnact
  {
    forall i | 0 <= i < MAX_AXES ensures a.cfg.dead[i] == b.cfg.dead[i] && a.cfg.mapAxis[i] == b.cfg.mapAxis[i] {
      assert Value(a, Dead(i)) == Value(b, Dead(i)) && Value(a, AxisMap(i)) == Value(b, AxisMap(i));
    }
    forall i | 0 <= i < MAX_BUTTONS
      ensures a.cfg.mapButton[i] == b.cfg.mapButton[i] && a.cfg.bnact[i] == b.cfg.bnact[i]
    {
      assert Value(a, BnMap(i)) == Value(b, BnMap(i)) && Value(a, BnAction(i)) == Value(b, BnAction(i));
    }
  }

  // a set request of one cell leaves the assignment that belongs to it
  lemma SetIs(pre: View, env: Env, ty: int, q: seq<int>, post: View, reply: Reply, c: Cell, x: int)
    requires pre.Valid() && |q| == 7 && !IsText(ty) && Handled(pre, env, Plain(ty, q), post, reply)
    requires c.Ok() && (c.KeyMap? && x > 0 ==> x in env.names)
    requires Means(env.names, Plain(ty, q)) == Set(map[c := Stored(c, x)])
    ensures post == Put(pre, env.names, c, x) && reply == Record(q[6 := 0])
  {
    hide Means, Wrote, Put, Stored;
    WrotePut(pre, env.names, c, x);
    PutValid(pre, env.names, c, x);
    WroteOnce(pre, post, Put(pre, env.names, c, x), env.names, map[c := Stored(c, x)]);
  }

  lemma PutValid(v: View, names: KeyNames, c: Cell, x: int)
    requires v.Valid() && c.Ok() && (c.KeyMap? && x > 0 ==> x in names)
    ensures Put(v, names, c, x).Valid()
  {
  }

  // a rejected one nothing
  lemma RejectedIs(pre: View, env: Env, ty: int, q: seq<int>, post: View, reply: Reply)
    requires pre.Valid() && |q| == 7 && !IsText(ty) && Handled(pre, env, Plain(ty, q), post, reply)
    requires Means(env.names, Plain(ty, q)) == Invalid
    ensures post == pre && reply == Record(q[6 := -1])
  {
    hide Means;
  }

  // a get request of one cell answers its value
  lemma GotIs(pre: View, env: Env, ty: int, q: seq<int>, post: View, reply: Reply, slot: int, c: Cell)
    requires pre.Valid() && |q| == 7 && !IsText(ty) && Handled(pre, env, Plain(ty, q), post, reply)
    requires c.Ok() && 0 <= slot < 6 && Means(env.names, Plain(ty, q)) == Get(map[slot := c])
    ensures post == pre && reply == Record(q[slot := Value(pre, c)][6 := 0])
  {
    hide Means, Value, Cell.Ok;
    assert reply.data == q[slot := Value(pre, c)][6 := 0];
  }

  // ---- requests ------------------------------------------------------------------------------

  /** The request ty with data q, served on settings pre, left post and was answered with reply. */
  ghost predicate Does(pre: View, env: Env, ty: int, q: seq<int>, post: View, reply: Reply) {
    pre.Valid() && |q| == 7 && !IsText(ty) && Handled(pre, env, Plain(ty, q), post, reply)
  }

  predicate Done(q: seq<int>, reply: Reply)
    requires |q| == 7
  {
    reply == Record(q[6 := 0])
  }

  /** Answered with -1, and nothing changed. */
  predicate Refused(pre: View, q: seq<int>, post: View, reply: Reply)
    requires |q| == 7
  {
    post == pre && reply == Record(q[6 := -1])
  }

  // a single with exponent bits all ones is infinite or no number
  predicate Number(bits: int) { bits / 0x80_0000 % 256 != 255 }

  /** REQ_SET_SENS */
  lemma SetsClientSens(pre: View, env: Env, q: seq<int>, post: View, reply: Reply)
    requires Does(pre, env, 0x1001, q, post, reply)
    ensures if Number(q[0]) then post == pre.(sens := q[0]) && Done(q, reply)
            else Refused(pre, q, post, reply)
  {
    hide Handled;
    if Number(q[0]) {
      SetIs(pre, env, 0x1001, q, post, reply, ClientSens, q[0]);
    } else {
      RejectedIs(pre, env, 0x1001, q, post, reply);
    }
  }

  /** REQ_GET_SENS */
  lemma GetsClientSens(pre: View, env: Env, q: seq<int>, post: View, reply: Reply)
    requires Does(pre, env, 0x1002, q, post, reply)
    ensures post == pre && Done(q[0 := pre.sens], reply)
  {
    hide Handled;
    GotIs(pre, env, 0x1002, q, post, reply, 0, ClientSens);
  }

  /** REQ_SET_EVMASK */
  lemma SetsEventMask(pre: View, env: Env, q: seq<int>, post: View, reply: Reply)
    requires Does(pre, env, 0x1003, q, post, reply)
    ensures post == pre.(evmask := q[0]) && Done(q, reply)
  {
    hide Handled;
    SetIs(pre, env, 0x1003, q, post, reply, EventMask, q[0]);
  }

  /** REQ_GET_EVMASK */
  lemma GetsEventMask(pre: View, env: Env, q: seq<int>, post: View, reply: Reply)
    requires Does(pre, env, 0x1004, q, post, reply)
    ensures post == pre && Done(q[0 := pre.evmask], reply)
  {
    hide Handled;
    GotIs(pre, env, 0x1004, q, post, reply, 0, EventMask);
  }

  /** REQ_SCFG_SENS */
  lemma SetsSens(pre: View, env: Env, q: seq<int>, post: View, reply: Reply)
    requires Does(pre, env, 0x3000, q, post, reply)
    ensures if Number(q[0]) then post == pre.(cfg := pre.cfg.(sensitivity := q[0])) && Done(q, reply)
            else Refused(pre, q, post, reply)
  {
    hide Handled;
    if Number(q[0]) {
      SetIs(pre, env, 0x3000, q, post, reply, Sens, q[0]);
    } else {
      RejectedIs(pre, env, 0x3000, q, post, reply);
    }
  }

  /** REQ_GCFG_SENS */
  lemma GetsSens(pre: View, env: Env, q: seq<int>, post: View, reply: Reply)
    requires Does(pre, env, 0x3001, q, post, reply)
    ensures post == pre && Done(q[0 := pre.cfg.sensitivity], reply)
  {
    hide Handled;
    GotIs(pre, env, 0x3001, q, post, reply, 0, Sens);
  }

  /** REQ_SCFG_DEADZONE: a device axis and its threshold. */
  lemma SetsDeadzone(pre: View, env: Env, q: seq<int>, post: View, reply: Reply)
    requires Does(pre, env, 0x3004, q, post, reply)
    ensures if 0 <= q[0] < 64 then post == pre.(cfg := pre.cfg.(dead := pre.cfg.dead[q[0] := q[1]])) && Done(q, reply)
            else Refused(pre, q, post, reply)
  {
    hide Handled;
    if 0 <= q[0] < 64 {
      SetIs(pre, env, 0x3004, q, post, reply, Dead(q[0]), q[1]);
    } else {
      RejectedIs(pre, env, 0x3004, q, post, reply);
    }
  }

  /** REQ_GCFG_DEADZONE */
  lemma GetsDeadzone(pre: View, env: Env, q: seq<int>, post: View, reply: Reply)
    requires Does(pre, env, 0x3005, q, post, reply)
    ensures if 0 <= q[0] < 64 then
              post == pre && Done(q[1 := pre.cfg.dead[q[0]]], reply)
            else Refused(pre, q, post, reply)
  {
    hide Handled;
    if 0 <= q[0] < 64 {
      GotIs(pre, env, 0x3005, q, post, reply, 1, Dead(q[0]));
    } else {
      RejectedIs(pre, env, 0x3005, q, post, reply);
    }
  }

  /** REQ_SCFG_AXISMAP: a device axis and the output axis it goes to, -1 for none. */
  lemma SetsAxisMap(pre: View, env: Env, q: seq<int>, post: View, reply: Reply)
    requires Does(pre, env, 0x3008, q, post, reply)
    ensures if 0 <= q[0] < 64 && -1 <= q[1] < 6 then
              post == pre.(cfg := pre.cfg.(mapAxis := pre.cfg.mapAxis[q[0] := q[1]])) && Done(q, reply)
            else Refused(pre, q, post, reply)
  {
    hide Handled;
    if 0 <= q[0] < 64 && -1 <= q[1] < 6 {
      SetIs(pre, env, 0x3008, q, post, reply, AxisMap(q[0]), q[1]);
    } else {
      RejectedIs(pre, env, 0x3008, q, post, reply);
    }
  }

  /** REQ_GCFG_AXISMAP */
  lemma GetsAxisMap(pre: View, env: Env, q: seq<int>, post: View, reply: Reply)
    requires Does(pre, env, 0x3009, q, post, reply)
    ensures if 0 <= q[0] < 64 then
              post == pre && Done(q[1 := pre.cfg.mapAxis[q[0]]], reply)
            else Refused(pre, q, post, reply)
  {
    hide Handled;
    if 0 <= q[0] < 64 {
      GotIs(pre, env, 0x3009, q, post, reply, 1, AxisMap(q[0]));
    } else {
      RejectedIs(pre, env, 0x3009, q, post, reply);
    }
  }

  /** REQ_SCFG_BNMAP: a device button and the number it sends. */
  lemma SetsBnMap(pre: View, env: Env, q: seq<int>, post: View, reply: Reply)
    requires Does(pre, env, 0x300a, q, post, reply)
    ensures if 0 <= q[0] < 64 && 0 <= q[1] < 64 then
              post == pre.(cfg := pre.cfg.(mapButton := pre.cfg.mapButton[q[0] := q[1]])) && Done(q, reply)
            else Refused(pre, q, post, reply)
  {
    hide Handled;
    if 0 <= q[0] < 64 && 0 <= q[1] < 64 {
      SetIs(pre, env, 0x300a, q, post, reply, BnMap(q[0]), q[1]);
    } else {
      RejectedIs(pre, env, 0x300a, q, post, reply);
    }
  }

  /** REQ_GCFG_BNMAP */
  lemma GetsBnMap(pre: View, env: Env, q: seq<int>, post: View, reply: Reply)
    requires Does(pre, env, 0x300b, q, post, reply)
    ensures if 0 <= q[0] < 64 then
              post == pre && Done(q[1 := pre.cfg.mapButton[q[0]]], reply)
            else Refused(pre, q, post, reply)
  {
    hide Handled;
    if 0 <= q[0] < 64 {
      GotIs(pre, env, 0x300b, q, post, reply, 1, BnMap(q[0]));
    } else {
      RejectedIs(pre, env, 0x300b, q, post, reply);
    }
  }

  /** REQ_SCFG_BNACTION: a device button and the action bound to it. */
  lemma SetsBnAction(pre: View, env: Env, q: seq<int>, post: View, reply: Reply)
    requires Does(pre, env, 0x300c, q, post, reply)
    ensures if 0 <= q[0] < 64 && 0 <= q[1] < 7 then
              post == pre.(cfg := pre.cfg.(bnact := pre.cfg.bnact[q[0] := q[1]])) && Done(q, reply)
            else Refused(pre, q, post, reply)
  {
    hide Handled;
    if 0 <= q[0] < 64 && 0 <= q[1] < 7 {
      SetIs(pre, env, 0x300c, q, post, reply, BnAction(q[0]), q[1]);
    } else {
      RejectedIs(pre, env, 0x300c, q, post, reply);
    }
  }

  /** REQ_GCFG_BNACTION */
  lemma GetsBnAction(pre: View, env: Env, q: seq<int>, post: View, reply: Reply)
    requires Does(pre, env, 0x300d, q, post, reply)
    ensures if 0 <= q[0] < 64 then
              post == pre && Done(q[1 := pre.cfg.bnact[q[0]]], reply)
            else Refused(pre, q, post, reply)
  {
    hide Handled;
    if 0 <= q[0] < 64 {
      GotIs(pre, env, 0x300d, q, post, reply, 1, BnAction(q[0]));
    } else {
      RejectedIs(pre, env, 0x300d, q, post, reply);
    }
  }

  /** REQ_SCFG_KBMAP: a device button and a key code with a name, or nothing positive to remove its keys. */
  lemma SetsKeyMap(pre: View, env: Env, q: seq<int>, post: View, reply: Reply)
    requires Does(pre, env, 0x300e, q, post, reply)
    ensures if 0 <= q[0] < 64 && (q[1] <= 0 || q[1] in env.names) then
              && post.keys == pre.keys[q[0] := if q[1] > 0 then [q[1]] else []]
              && post.cfg.kbmapStr == pre.cfg.kbmapStr[q[0] := if q[1] > 0 then env.names[q[1]] else ""]
              && post == pre.(keys := post.keys, cfg := pre.cfg.(kbmapStr := post.cfg.kbmapStr)) && Done(q, reply)
            else Refused(pre, q, post, reply)
  {
    hide Handled;
    if 0 <= q[0] < 64 && (q[1] <= 0 || q[1] in env.names) {
      SetIs(pre, env, 0x300e, q, post, reply, KeyMap(q[0]), q[1]);
    } else {
      RejectedIs(pre, env, 0x300e, q, post, reply);
    }
  }

  /** REQ_GCFG_KBMAP: the first of the keys, or 0. */
  lemma GetsKeyMap(pre: View, env: Env, q: seq<int>, post: View, reply: Reply)
    requires Does(pre, env, 0x300f, q, post, reply)
    ensures if 0 <= q[0] < 64 then
              post == pre && Done(q[1 := if pre.keys[q[0]] == [] then 0 else pre.keys[q[0]][0]], reply)
            else Refused(pre, q, post, reply)
  {
    hide Handled;
    if 0 <= q[0] < 64 {
      GotIs(pre, env, 0x300f, q, post, reply, 1, KeyMap(q[0]));
    } else {
      RejectedIs(pre, env, 0x300f, q, post, reply);
    }
  }

  /** REQ_SCFG_SWAPYZ: any number but 0 switches it on. */
  lemma SetsSwapYz(pre: View, env: Env, q: seq<int>, post: View, reply: Reply)
    requires Does(pre, env, 0x3010, q, post, reply)
    ensures post == pre.(cfg := pre.cfg.(swapyz := if q[0] == 0 then 0 else 1)) && Done(q, reply)
  {
    hide Handled;
    SetIs(pre, env, 0x3010, q, post, reply, SwapYZ, if q[0] == 0 then 0 else 1);
  }

  /** REQ_GCFG_SWAPYZ */
  lemma GetsSwapYz(pre: View, env: Env, q: seq<int>, post: View, reply: Reply)
    requires Does(pre, env, 0x3011, q, post, reply)
    ensures post == pre && Done(q[0 := pre.cfg.swapyz], reply)
  {
    hide Handled;
    GotIs(pre, env, 0x3011, q, post, reply, 0, SwapYZ);
  }

  /** REQ_SCFG_GRAB: any number but 0 switches it on. */
  lemma SetsGrab(pre: View, env: Env, q: seq<int>, post: View, reply: Reply)
    requires Does(pre, env, 0x3014, q, post, reply)
    ensures post == pre.(cfg := pre.cfg.(grab := if q[0] == 0 then 0 else 1)) && Done(q, reply)
  {
    hide Handled;
    SetIs(pre, env, 0x3014, q, post, reply, Grab, if q[0] == 0 then 0 else 1);
  }

  /** REQ_GCFG_GRAB */
  lemma GetsGrab(pre: View, env: Env, q: seq<int>, post: View, reply: Reply)
    requires Does(pre, env, 0x3015, q, post, reply)
    ensures post == pre && Done(q[0 := pre.cfg.grab], reply)
  {
    hide Handled;
    GotIs(pre, env, 0x3015, q, post, reply, 0, Grab);
  }

  /** REQ_SCFG_LED: off, on or automatic. */
  lemma SetsLed(pre: View, env: Env, q: seq<int>, post: View, reply: Reply)
    requires Does(pre, env, 0x3012, q, post, reply)
    ensures if 0 <= q[0] < 3 then post == pre.(cfg := pre.cfg.(led := q[0])) && Done(q, reply)
            else Refused(pre, q, post, reply)
  {
    hide Handled;
    if 0 <= q[0] < 3 {
      SetIs(pre, env, 0x3012, q, post, reply, Led, q[0]);
    } else {
      RejectedIs(pre, env, 0x3012, q, post, reply);
    }
  }

  /** REQ_GCFG_LED */
  lemma GetsLed(pre: View, env: Env, q: seq<int>, post: View, reply: Reply)
    requires Does(pre, env, 0x3013, q, post, reply)
    ensures post == pre && Done(q[0 := pre.cfg.led], reply)
  {
    hide Handled;
    GotIs(pre, env, 0x3013, q, post, reply, 0, Led);
  }

  /** REQ_SCFG_REPEAT */
  lemma SetsRepeat(pre: View, env: Env, q: seq<int>, post: View, reply: Reply)
    requires Does(pre, env, 0x3018, q, post, reply)
    ensures post == pre.(cfg := pre.cfg.(repeat := q[0])) && Done(q, reply)
  {
    hide Handled;
    SetIs(pre, env, 0x3018, q, post, reply, Repeat, q[0]);
  }

  /** REQ_GCFG_REPEAT */
  lemma GetsRepeat(pre: View, env: Env, q: seq<int>, post: View, reply: Reply)
    requires Does(pre, env, 0x3019, q, post, reply)
    ensures post == pre && Done(q[0 := pre.cfg.repeat], reply)
  {
    hide Handled;
    GotIs(pre, env, 0x3019, q, post, reply, 0, Repeat);
  }

  // ---- requests over all six axes --------------------------------------------------------------

  /** REQ_SCFG_SENS_AXIS: three factors for translation and three for rotation, all or none. */
  lemma SetsAxisSens(pre: View, env: Env, q: seq<int>, post: View, reply: Reply)
    requires Does(pre, env, 0x3002, q, post, reply)
    ensures if forall i :: 0 <= i < 6 ==> Number(q[i]) then
              post == pre.(cfg := pre.cfg.(sensTrans := [q[0], q[1], q[2]], sensRot := [q[3], q[4], q[5]]))
              && Done(q, reply)
            else Refused(pre, q, post, reply)
  {
    hide Wrote, SensWrites;
    if forall i :: 0 <= i < 6 ==> Number(q[i]) {
      assert forall i :: 0 <= i < 6 ==> Number(q[i]) && Finite(q[i]);
      WroteAxisSens(pre, env.names, q);
      assert q[..3] == [q[0], q[1], q[2]] && q[3..6] == [q[3], q[4], q[5]];
      WroteOnce(pre, post, pre.(cfg := pre.cfg.(sensTrans := q[..3], sensRot := q[3..6])), env.names, SensWrites(q));
    } else {
      var i :| 0 <= i < 6 && !Number(q[i]);
      assert !Finite(q[i]);
    }
  }

  /** REQ_GCFG_SENS_AXIS */
  lemma GetsAxisSens(pre: View, env: Env, q: seq<int>, post: View, reply: Reply)
    requires Does(pre, env, 0x3003, q, post, reply)
    ensures post == pre && reply == Record(pre.cfg.sensTrans + pre.cfg.sensRot + [0])
  {
    hide Answers;
    SixAnswers(pre, Plain(0x3003, q), reply, SensSlots());
    assert reply.data == pre.cfg.sensTrans + pre.cfg.sensRot + [0];
  }

  // a get over all six axes
  lemma SixAnswers(pre: View, r: Req, reply: Reply, slots: map<int, Cell>)
    requires pre.Valid() && r.Plain? && |r.data| == 7 && GetReply(pre, r, reply, slots)
    requires forall i :: i in slots <==> 0 <= i < 6
    ensures reply.Record? && |reply.data| == 7 && reply.data[6] == 0 && SlotsOk(slots)
    ensures forall i :: 0 <= i < 6 ==> reply.data[i] == Value(pre, slots[i])
  {
    hide Value, Cell.Ok;
  }

  /** REQ_SCFG_INVERT: one truth value an axis. */
  lemma SetsInvert(pre: View, env: Env, q: seq<int>, post: View, reply: Reply)
    requires Does(pre, env, 0x3006, q, post, reply)
    ensures |post.cfg.invert| == 6 && forall i :: 0 <= i < 6 ==> post.cfg.invert[i] == (q[i] != 0)
    ensures post == pre.(cfg := pre.cfg.(invert := post.cfg.invert)) && Done(q, reply)
  {
    hide Wrote, InvertWrites;
    var s := seq(6, i requires 0 <= i < 6 => q[i] != 0);
    WroteInvert(pre, env.names, q, s);
    WroteOnce(pre, post, pre.(cfg := pre.cfg.(invert := s)), env.names, InvertWrites(q));
  }

  /** REQ_GCFG_INVERT */
  lemma GetsInvert(pre: View, env: Env, q: seq<int>, post: View, reply: Reply)
    requires Does(pre, env, 0x3007, q, post, reply)
    ensures post == pre && reply.Record? && |reply.data| == 7 && reply.data[6] == 0
    ensures forall i :: 0 <= i < 6 ==> reply.data[i] == if pre.cfg.invert[i] then 1 else 0
  {
    hide Answers;
    SixAnswers(pre, Plain(0x3007, q), reply, InvertSlots());
  }

  // ---- text ------------------------------------------------------------------------------------

  /**
   The name of the client (REQ_SET_NAME), the serial device (REQ_SCFG_SERDEV) and the socket
   (REQ_SCFG_SOCKET) change when the last packet of a string has come, and nothing is answered.
   */
  lemma TakesText(pre: View, env: Env, ty: int, p: StringTransfer.Packet, post: View, reply: Reply)
    requires pre.Valid() && p.Valid() && (ty == 0x1000 || ty == 0x3016 || ty == 0x301a)
    requires Handled(pre, env, Text(ty, p), post, reply)
    ensures var o := StringTransfer.Step(pre.text, p);
            && reply == NoReply
            && if o.status != 1 then post == pre.(text := o.state)
               else if ty == 0x1000 then post == pre.(name := CString(o.state.data), text := StringTransfer.Idle)
               else if ty == 0x3016 then
                 post == pre.(cfg := pre.cfg.(serial := PathOf(o.state.data)), text := o.state)
               else post == pre.(cfg := pre.cfg.(sockpath := PathOf(o.state.data)), text := o.state)
  {
    hide StringTransfer.Step, CString, PathOf;
  }

  /** REQ_GCFG_SERDEV and REQ_GCFG_SOCKET */
  lemma SendsText(pre: View, env: Env, ty: int, q: seq<int>, post: View, reply: Reply)
    requires Does(pre, env, ty, q, post, reply) && (ty == 0x3017 || ty == 0x301b)
    ensures post == pre && reply.Packets?
    ensures StringTransfer.Carries(reply.packets, if ty == 0x3017 then pre.cfg.serial else pre.cfg.sockpath)
  {
    hide StringTransfer.Carries;
  }

  // ---- the client's device ----------------------------------------------------------------------

  /** REQ_DEV_*: without a device, and without a USB id, the answer is -1. */
  lemma AnswersDevice(pre: View, env: Env, ty: int, q: seq<int>, post: View, reply: Reply)
    requires Does(pre, env, ty, q, post, reply) && 0x2000 <= ty <= 0x2005
    ensures post == pre
    ensures match env.dev
            case None => Refused(pre, q, post, reply)
            case Some(d) =>
              && (ty == 0x2000 ==> reply.Packets? && StringTransfer.Carries(reply.packets, d.name))
              && (ty == 0x2001 ==> reply.Packets? && StringTransfer.Carries(reply.packets, d.path))
              && (ty == 0x2002 ==> Done(q[0 := d.naxes], reply))
              && (ty == 0x2003 ==> Done(q[0 := d.nbuttons], reply))
              && (ty == 0x2004 && d.vendor != 0 && d.product != 0 ==> Done(q[0 := d.vendor][1 := d.product], reply))
              && (ty == 0x2004 && (d.vendor == 0 || d.product == 0) ==> Refused(pre, q, post, reply))
              && (ty == 0x2005 ==> Done(q[0 := d.ty], reply))
  {
    hide StringTransfer.Carries, Answers;
    match env.dev
    case None =>
    case Some(d) =>
      if ty == 0x2002 { OneAnswer(q, ty, reply, d.naxes); }
      if ty == 0x2003 { OneAnswer(q, ty, reply, d.nbuttons); }
      if ty == 0x2004 && d.vendor != 0 && d.product != 0 { TwoAnswers(q, ty, reply, d.vendor, d.product); }
      if ty == 0x2005 { OneAnswer(q, ty, reply, d.ty); }
  }

  lemma OneAnswer(q: seq<int>, ty: int, reply: Reply, x: int)
    requires |q| == 7 && Answers(Plain(ty, q), reply, map[0 := x])
    ensures Done(q[0 := x], reply)
  {
    assert reply.data == q[0 := x][6 := 0];
  }

  lemma TwoAnswers(q: seq<int>, ty: int, reply: Reply, x: int, y: int)
    requires |q| == 7 && Answers(Plain(ty, q), reply, map[0 := x, 1 := y])
    ensures Done(q[0 := x][1 := y], reply)
  {
    assert reply.data == q[0 := x][1 := y][6 := 0];
  }

  // ---- the file, and everything else --------------------------------------------------------------

  /** REQ_CFG_SAVE, REQ_CFG_RESTORE and REQ_CFG_RESET */
  lemma FileRequests(pre: View, env: Env, ty: int, q: seq<int>, post: View, reply: Reply)
    requires Does(pre, env, ty, q, post, reply) && 0x3ffe <= ty <= 0x4000
    ensures var defaults := pre.(cfg := DefaultCfg(0x3f80_0000), keys := Fill(MAX_BUTTONS, []));
            && (ty == 0x3ffe ==> post == pre && reply == Record(q[6 := env.saved]))
            && (ty == 0x3fff ==> Done(q, reply))
            && (ty == 0x3fff && env.file.Some? ==> post == pre.(cfg := env.file.value.0, keys := env.file.value.1))
            && (ty == 0x3fff && env.file.None? ==> post == defaults)
            && (ty == 0x4000 ==> post == defaults && Done(q, reply))
  {
    hide DefaultCfg, Fill;
  }

  /** Every other number is refused. */
  lemma UnknownRefused(pre: View, env: Env, ty: int, q: seq<int>, post: View, reply: Reply)
    requires Does(pre, env, ty, q, post, reply)
    requires !(0x1000 <= ty <= 0x1004) && !(0x2000 <= ty <= 0x2005)
    requires !(0x3000 <= ty <= 0x301b) && !(0x3ffe <= ty <= 0x4000)
    ensures Refused(pre, q, post, reply)
  {
    hide Wrote, GetReply, QueryReply, Sends;
  }

  // ---- runs -----------------------------------------------------------------------------------

  // set requests of one value, with and without an index; the number of the get request is one higher
  predicate Indexed(ty: int) { ty in [0x3004, 0x3008, 0x300a, 0x300c, 0x300e] }

  predicate Scalar(ty: int) { ty in [0x1001, 0x1003, 0x3000, 0x3010, 0x3012, 0x3014, 0x3018] }

  /** The value a set request sends: switches are 0 or 1, and an absent key is 0. */
  function Sent(ty: int, q: seq<int>): int
    requires |q| == 7 && (Indexed(ty) || Scalar(ty))
  {
    if ty == 0x300e then (if q[1] > 0 then q[1] else 0)
    else if Indexed(ty) then q[1]
    else if ty == 0x3010 || ty == 0x3014 then (if q[0] == 0 then 0 else 1)
    else q[0]
  }

  /**
   The request can change what set request ty with data q has set: the same set, or one that
   replaces the whole configuration, to which the client's own two settings do not belong.
   */
  predicate Resets(r: Req, ty: int, q: seq<int>)
    requires |q| == 7
  {
    r.Plain? && |r.data| == 7 &&
    (((r.ty == 0x3fff || r.ty == 0x4000) && ty >= 0x3000) || (r.ty == ty && (Indexed(ty) ==> r.data[0] == q[0])))
  }

  // the cell a set request is about
  function CellOf(ty: int, q: seq<int>): Cell
    requires |q| == 7 && (Indexed(ty) || Scalar(ty))
  {
    if ty == 0x3004 then Dead(q[0]) else if ty == 0x3008 then AxisMap(q[0]) else if ty == 0x300a then BnMap(q[0])
    else if ty == 0x300c then BnAction(q[0]) else if ty == 0x300e then KeyMap(q[0])
    else if ty == 0x1001 then ClientSens else if ty == 0x1003 then EventMask else if ty == 0x3000 then Sens
    else if ty == 0x3010 then SwapYZ else if ty == 0x3012 then Led else if ty == 0x3014 then Grab else Repeat
  }

  lemma AcceptedMeans(names: KeyNames, ty: int, q: seq<int>)
    requires |q| == 7 && (Indexed(ty) || Scalar(ty)) && Means(names, Plain(ty, q)) != Invalid
    ensures CellOf(ty, q).Ok() && Means(names, Plain(ty, q)) == Set(map[CellOf(ty, q) := Sent(ty, q)])
  {
    hide Finite;
  }

  lemma AskedMeans(names: KeyNames, ty: int, q: seq<int>, g: seq<int>)
    requires |q| == 7 && |g| == 7 && (Indexed(ty) || Scalar(ty)) && CellOf(ty, q).Ok()
    requires Indexed(ty) ==> g[0] == q[0]
    ensures Means(names, Plain(ty + 1, g)) == Get(map[(if Indexed(ty) then 1 else 0) := CellOf(ty, q)])
  {
    hide Finite;
  }

  lemma OthersKeep(names: KeyNames, r: Req, ty: int, q: seq<int>)
    requires r.Valid() && |q| == 7 && (Indexed(ty) || Scalar(ty)) && CellOf(ty, q).Ok() && !Resets(r, ty, q)
    ensures Spares(Means(names, r), CellOf(ty, q))
  {
    hide Spares, MeansFirst, MeansButtons, MeansLast, CellOf, Cell.Ok, Resets, Indexed, Scalar;
    if r.Text? {
      TextSpares(names, r, CellOf(ty, q));
    } else if r.ty < 0x3008 {
      FirstKeep(r, ty, q);
    } else if r.ty < 0x3010 {
      ButtonsKeep(names, r, ty, q);
    } else {
      LastKeep(r, ty, q);
    }
  }

  // the meaning does not write the cell; what replaces the configuration spares the client's own settings
  ghost predicate Spares(m: Meaning, c: Cell) {
    && (m.Restore? || m.Reset? ==> c.ClientSens? || c.EventMask?)
    && (m.Set? ==> c !in m.writes)
  }

  lemma TextSpares(names: KeyNames, r: Req, c: Cell)
    requires r.Valid() && r.Text?
    ensures Spares(Means(names, r), c)
  {
  }

  lemma FirstKeep(r: Req, ty: int, q: seq<int>)
    requires r.Valid() && |q| == 7 && (Indexed(ty) || Scalar(ty)) && CellOf(ty, q).Ok() && !Resets(r, ty, q)
    requires r.Plain?
    ensures Spares(MeansFirst(r.ty, r.data), CellOf(ty, q))
  {
    hide Finite;
  }

  lemma ButtonsKeep(names: KeyNames, r: Req, ty: int, q: seq<int>)
    requires r.Valid() && |q| == 7 && (Indexed(ty) || Scalar(ty)) && CellOf(ty, q).Ok() && !Resets(r, ty, q)
    requires r.Plain?
    ensures Spares(MeansButtons(names, r.ty, r.data), CellOf(ty, q))
  {
  }

  lemma LastKeep(r: Req, ty: int, q: seq<int>)
    requires r.Valid() && |q| == 7 && (Indexed(ty) || Scalar(ty)) && CellOf(ty, q).Ok() && !Resets(r, ty, q)
    requires r.Plain?
    ensures Spares(MeansLast(r.ty, r.data), CellOf(ty, q))
  {
  }

  // the client's own settings do not come from the file
  lemma OwnKept(v: View, env: Env)
    requires v.Valid() && env.Valid()
    ensures Value(RestoredView(v, env), ClientSens) == Value(DefaultView(v), ClientSens) == Value(v, ClientSens)
    ensures Value(RestoredView(v, env), EventMask) == Value(DefaultView(v), EventMask) == Value(v, EventMask)
  {
  }

  lemma KeptNext(x: Exchange, ty: int, q: seq<int>)
    requires x.pre.Valid() && x.env.Valid() && x.req.Valid() && Handled(x.pre, x.env, x.req, x.post, x.reply)
    requires |q| == 7 && (Indexed(ty) || Scalar(ty)) && CellOf(ty, q).Ok() && !Resets(x.req, ty, q)
    ensures Value(x.post, CellOf(ty, q)) == Value(x.pre, CellOf(ty, q))
  {
    hide Means, Value, Handled, Cell.Ok, Resets, CellOf;
    OthersKeep(x.env.names, x.req, ty, q);
    ValueNext(x, CellOf(ty, q));
    OwnKept(x.pre, x.env);
  }

  lemma {:induction false} KeptLong(xs: seq<Exchange>, j: nat, k: nat, ty: int, q: seq<int>)
    requires Run(xs) && j < k < |xs| && |q| == 7 && (Indexed(ty) || Scalar(ty)) && CellOf(ty, q).Ok()
    requires forall m :: j < m < k ==> !Resets(xs[m].req, ty, q)
    ensures xs[j] in xs && xs[k] in xs
    ensures xs[j].post.Valid() && Value(xs[k].pre, CellOf(ty, q)) == Value(xs[j].post, CellOf(ty, q))
    decreases k
  {
    hide Value, Handled, Cell.Ok, Resets, CellOf, Indexed, Scalar;
    assert xs[k] in xs && xs[k - 1] in xs && xs[j] in xs;
    if k > j + 1 {
      KeptLong(xs, j, k - 1, ty, q);
      KeptNext(xs[k - 1], ty, q);
    }
  }

  lemma AcceptedOnce(x: Exchange, ty: int, q: seq<int>)
    requires x.pre.Valid() && x.req.Valid() && Handled(x.pre, x.env, x.req, x.post, x.reply)
    requires |q| == 7 && x.req == Plain(ty, q) && Done(q, x.reply)
    ensures Means(x.env.names, x.req) != Invalid
  {
    hide Means;
    assert q[6 := -1][6] != q[6 := 0][6];
  }

  /**
   In every run of requests a get answers the value the latest accepted set of that setting and
   index has sent, whatever other requests came between.
   */
  lemma SetThenGet(xs: seq<Exchange>, j: nat, k: nat, ty: int, q: seq<int>, g: seq<int>)
    requires Run(xs) && j < k < |xs| && |q| == 7 && |g| == 7 && (Indexed(ty) || Scalar(ty))
    requires xs[j].req == Plain(ty, q) && Done(q, xs[j].reply)
    requires xs[k].req == Plain(ty + 1, g) && (Indexed(ty) ==> g[0] == q[0])
    requires forall m :: j < m < k ==> !Resets(xs[m].req, ty, q)
    ensures Done(if Indexed(ty) then g[1 := Sent(ty, q)] else g[0 := Sent(ty, q)], xs[k].reply)
  {
    hide Means, Value, Cell.Ok, Resets, CellOf, Wrote;
    var x, y := xs[j], xs[k];
    assert x in xs && y in xs;
    AcceptedOnce(x, ty, q);
    AcceptedMeans(x.env.names, ty, q);
    KeptLong(xs, j, k, ty, q);
    AskedMeans(y.env.names, ty, q, g);
    assert Value(x.post, CellOf(ty, q)) == Sent(ty, q) by { ValueNext(x, CellOf(ty, q)); }
    GotIs(y.pre, y.env, ty + 1, g, y.post, y.reply, if Indexed(ty) then 1 else 0, CellOf(ty, q));
  }
}
