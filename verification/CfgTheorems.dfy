/**
 The promises of saving: what a reload returns after any history of saves, when
 it returns the configuration saved last, and that saving twice changes nothing.
 */
module CfgTheorems {
  import opened Basics
  import opened CText
  import opened Config
  import opened CfgKeys
  import opened CfgTable
  import opened CfgWrite
  import opened CfgRead
  import opened CfgSave
  import opened CfgReload
  import opened CfgForeign

  predicate DevIds(ds: seq<(int, int)>) { forall i :: 0 <= i < |ds| ==> IsInt(ds[i].0) && IsInt(ds[i].1) }

  predicate History(h: seq<Cfg<real>>) { Configs(h) && forall c :: c in h ==> Printable(c) && DevIds(c.devid) }

  function FileAfter(h: seq<Cfg<real>>): string
    requires Configs(h)
  {
    Text(Table(h))
  }

  // ---- every reload ----------------------------------------------------------------

  lemma DefaultPrintable()
    ensures Printable(DefaultCfg(1.0))
  {
    hide Pow10, KeyText, LineOf;
    ThousandFits();
    forall i | 0 <= i < MAX_BUTTONS ensures OneLine(KbMap(i), "") { ShortFits(KbMap(i), ""); }
    ShortFits(Serial, "");
    ShortFits(SockPath, "");
  }

  lemma ThousandFits()
    ensures Printable3(1.0)
  {
    assert Pow10(4) == 10_000;
    PowGrows(4, 42);
  }

  lemma {:induction false} PowGrows(a: nat, b: nat)
    requires a <= b
    ensures Pow10(a) <= Pow10(b)
  {
    if a < b { PowGrows(a, b - 1); }
  }

  lemma {:induction false} MeaningPrintable(h: seq<Cfg<real>>)
    requires History(h)
    ensures Printable(Meaning(h).cfg)
  {
    hide OneLine, Printable3, Uniform, AllTwo;
    if h == [] {
      DefaultPrintable();
    } else {
      MeaningPrintable(h[..|h| - 1]);
      assert Printable(h[|h| - 1]);
    }
  }

  /**
   After any history of saves that collected no more device ids than the list holds, a reload
   returns exactly what the history means.
   */
  lemma ReloadIs(h: seq<Cfg<real>>)
    requires History(h) && |Meaning(h).devs| <= MAX_CUSTOM
    ensures Read(FileAfter(h)) == Reloaded(Meaning(h))
  {
    hide Table, Meaning, Reloaded, Printable, ReadFrom, StandsFor, Text, Configs;
    MeaningPrintable(h);
    HistoryStands(h);
    ReadTable(Table(h), Meaning(h));
  }

  /** read_cfg writes past its device list exactly if the history collected more ids than the list holds. */
  lemma OverflowIff(h: seq<Cfg<real>>)
    requires History(h)
    ensures ReadFrom(FileAfter(h), Start()).Overflowed() <==> |Meaning(h).devs| > MAX_CUSTOM
  {
    hide Table, Meaning, Reloaded, Printable, ReadFrom, StandsFor, Text, Configs;
    MeaningPrintable(h);
    HistoryStands(h);
    ReadTable(Table(h), Meaning(h));
  }

  // ---- when the last save wins ---------------------------------------------------------

  predicate OnGrid(x: real) { Grid(x) == x }

  /** Every value of c is one the printer and the parser agree on. */
  predicate Faithful(c: Cfg<real>)
    requires c.Shaped()
  {
    && OnGrid(c.sensitivity) && (forall i :: 0 <= i < 3 ==> OnGrid(c.sensTrans[i]) && OnGrid(c.sensRot[i]))
    && (forall i :: 0 <= i < MAX_AXES ==> c.mapAxis[i] == i || 0 <= c.mapAxis[i] < 6)
    && (forall i :: 0 <= i < MAX_BUTTONS ==> ButtonIdx(c.mapButton[i]))
    && (forall i :: 0 <= i < MAX_BUTTONS ==> c.mapHold[i] == -1 || ButtonIdx(c.mapHold[i]))
    && c.holdTimeout >= 0
    && (forall i :: 0 <= i < MAX_BUTTONS ==> 0 <= c.bnact[i] < MAX_BNACT)
    && (forall i :: 0 <= i < MAX_BUTTONS ==> SepFree(c.kbmapStr[i]))
    && 0 <= c.swapyz <= 1 && 0 <= c.led <= 2 && 0 <= c.grab <= 1
    && SepFree(c.serial) && SepFree(c.sockpath)
    && c.kbemuX11 == 0
  }

  lemma WordIffSepFree(s: string)
    ensures Word(s) == s <==> SepFree(s)
  {
    hide Strtok;
    if SepFree(s) {
      if s == "" { WordOfNothing(); } else { WordOfWord(s); }
    } else if Strtok(s).Some? {
      assert SepFree(Strtok(s).value.0);
    }
  }

  lemma NormalIffFaithful(c: Cfg<real>)
    requires c.Shaped()
    ensures Normal(c) == c <==> Faithful(c)
  {
    hide Word, Grid, SepFree;
    forall s: string ensures Word(s) == s <==> SepFree(s) { WordIffSepFree(s); }
    var n := Normal(c);
    if Faithful(c) {
      assert n.sensTrans == c.sensTrans && n.sensRot == c.sensRot && n.mapAxis == c.mapAxis;
      assert n.mapButton == c.mapButton && n.mapHold == c.mapHold && n.bnact == c.bnact && n.kbmapStr == c.kbmapStr;
    }
    if n == c {
      FaithfulAxes(c);
      FaithfulButtons(c);
    }
  }

  lemma FaithfulAxes(c: Cfg<real>)
    requires c.Shaped() && Normal(c) == c
    ensures forall i :: 0 <= i < 3 ==> OnGrid(c.sensTrans[i]) && OnGrid(c.sensRot[i])
    ensures forall i :: 0 <= i < MAX_AXES ==> c.mapAxis[i] == i || 0 <= c.mapAxis[i] < 6
  {
    hide Word, Grid, SepFree;
    var n := Normal(c);
    assert forall i :: 0 <= i < 3 ==> n.sensTrans[i] == Grid(c.sensTrans[i]) && n.sensRot[i] == Grid(c.sensRot[i]);
  }

  lemma FaithfulButtons(c: Cfg<real>)
    requires c.Shaped() && Normal(c) == c
    ensures forall i :: 0 <= i < MAX_BUTTONS ==> ButtonIdx(c.mapButton[i])
    ensures forall i :: 0 <= i < MAX_BUTTONS ==> c.mapHold[i] == -1 || ButtonIdx(c.mapHold[i])
    ensures forall i :: 0 <= i < MAX_BUTTONS ==> 0 <= c.bnact[i] < MAX_BNACT
    ensures forall i :: 0 <= i < MAX_BUTTONS ==> Word(c.kbmapStr[i]) == c.kbmapStr[i]
  {
    hide Word, Grid, SepFree;
  }

  /** The dead zones survive unless they are 64 twos, or the default over a common dead-zone line. */
  lemma DeadSurvives(was: seq<int>, d: seq<int>)
    requires |was| == |d| == MAX_AXES && !AllTwo(was)
    ensures DeadAfter(was, d) == d <==> !AllTwo(d) && (d == DefaultDead() ==> !Uniform(was))
  {
    DefaultUneven();
  }

  // ---- device ids --------------------------------------------------------------------------

  // unsigned ids none of which is the end marker -1
  predicate Ids(ds: seq<(nat, nat)>) {
    forall i :: 0 <= i < |ds| ==> ds[i].0 < UINT_LIMIT - 1 && ds[i].1 < UINT_LIMIT - 1
  }

  function Pairs(devid: seq<(int, int)>): (r: seq<(nat, nat)>)
    ensures |r| == |devid| && forall i :: 0 <= i < |r| ==> r[i] == (ToUint(devid[i].0), ToUint(devid[i].1))
  {
    seq(|devid|, i requires 0 <= i < |devid| => (ToUint(devid[i].0), ToUint(devid[i].1)))
  }

  lemma ToUintProper(v: int)
    requires IsInt(v)
    ensures ToInt(ToUint(v)) == v && (v != -1 ==> ToUint(v) < UINT_LIMIT - 1)
  {
  }

  lemma ToIntProper(u: nat)
    requires u < UINT_LIMIT - 1
    ensures ToInt(u) != -1 && ToUint(ToInt(u)) == u
  {
  }

  lemma {:induction false} AddAllKeeps(ds: seq<(nat, nat)>, devid: seq<(int, int)>)
    requires Distinct(ds) && Ids(ds) && DevIds(devid)
    ensures var r := AddAll(ds, devid); ds <= r && Distinct(r) && Ids(r)
  {
    hide ToUint;
    if devid != [] {
      var d := devid[|devid| - 1];
      AddAllKeeps(ds, devid[..|devid| - 1]);
      ToUintProper(d.0);
      ToUintProper(d.1);
    }
  }

  // the list starts with n distinct valid ids and holds only end markers after them
  predicate Compact(devid: seq<(int, int)>, n: nat) {
    && n <= |devid|
    && (forall i :: 0 <= i < n ==> devid[i].0 != -1 && devid[i].1 != -1)
    && (forall i :: n <= i < |devid| ==> devid[i] == (-1, -1))
    && Distinct(Pairs(devid[..n]))
  }

  lemma DistinctAt(ds: seq<(nat, nat)>, k: nat)
    requires Distinct(ds) && k < |ds|
    ensures ds[k] !in ds[..k]
  {
  }

  lemma PairsTake(devid: seq<(int, int)>, n: nat, m: nat)
    requires m <= n <= |devid|
    ensures Pairs(devid[..m]) == Pairs(devid[..n])[..m]
  {
    hide ToUint;
  }

  // one more id of a compact list
  lemma AddCompact(ds: seq<(nat, nat)>, all: seq<(nat, nat)>, m: nat, before: seq<(nat, nat)>)
    requires Distinct(all) && ds <= all && 0 < m <= |all|
    requires before == if m - 1 <= |ds| then ds else all[..m - 1]
    ensures AddDev(before, all[m - 1]) == if m <= |ds| then ds else all[..m]
  {
    hide Distinct;
    if m - 1 < |ds| {
      assert ds[m - 1] == all[m - 1];
    } else {
      assert before == all[..m - 1];
      DistinctAt(all, m - 1);
      assert all[..m] == all[..m - 1] + [all[m - 1]];
    }
  }

  lemma {:induction false} AddAllCompact(ds: seq<(nat, nat)>, devid: seq<(int, int)>, n: nat, m: nat)
    requires Compact(devid, n) && ds <= Pairs(devid[..n]) && m <= |devid|
    ensures AddAll(ds, devid[..m]) == if m <= |ds| then ds else Pairs(devid[..if m < n then m else n])
  {
    hide ToUint, AddDev, Distinct;
    if m > 0 {
      AddAllCompact(ds, devid, n, m - 1);
      assert devid[..m][..m - 1] == devid[..m - 1];
      if m <= n {
        var all := Pairs(devid[..n]);
        PairsTake(devid, n, m);
        PairsTake(devid, n, m - 1);
        AddCompact(ds, all, m, AddAll(ds, devid[..m - 1]));
      } else {
        assert devid[..m][m - 1] == (-1, -1);
      }
    } else {
      assert devid[..0] == [];
    }
  }

  /**
   With no more ids than places, the device list survives exactly when it is
   compact and begins with the ids already in the table.
   */
  lemma DevsSurvive(ds: seq<(nat, nat)>, devid: seq<(int, int)>)
    requires Distinct(ds) && Ids(ds) && DevIds(devid) && |devid| == MAX_CUSTOM
    requires |AddAll(ds, devid)| <= MAX_CUSTOM
    ensures PadDevs(AddAll(ds, devid)) == devid
            <==> exists n :: 0 <= n <= MAX_CUSTOM && Compact(devid, n) && ds <= Pairs(devid[..n])
  {
    hide ToUint, ToInt;
    AddAllKeeps(ds, devid);
    var r := AddAll(ds, devid);
    if PadDevs(r) == devid {
      SurvivorsCompact(ds, devid, r);
    }
    if exists n :: 0 <= n <= MAX_CUSTOM && Compact(devid, n) && ds <= Pairs(devid[..n]) {
      var n :| 0 <= n <= MAX_CUSTOM && Compact(devid, n) && ds <= Pairs(devid[..n]);
      AddAllCompact(ds, devid, n, |devid|);
      assert devid[..|devid|] == devid;
      assert r == Pairs(devid[..n]);
      forall i | 0 <= i < MAX_CUSTOM ensures PadDevs(r)[i] == devid[i] {
        if i < n { ToUintProper(devid[i].0); ToUintProper(devid[i].1); }
      }
    }
  }

  lemma SurvivorsCompact(ds: seq<(nat, nat)>, devid: seq<(int, int)>, r: seq<(nat, nat)>)
    requires |devid| == MAX_CUSTOM && |r| <= MAX_CUSTOM && PadDevs(r) == devid
    requires ds <= r && Distinct(r) && Ids(r)
    ensures Compact(devid, |r|) && ds <= Pairs(devid[..|r|])
  {
    hide ToUint, ToInt;
    forall i | 0 <= i < |r| ensures devid[i].0 != -1 && devid[i].1 != -1 && Pairs(devid[..|r|])[i] == r[i] {
      ToIntProper(r[i].0);
      ToIntProper(r[i].1);
    }
    assert Pairs(devid[..|r|]) == r;
  }

  // 64 ids, and one more
  function ManyIds(): (ds: seq<(int, int)>)
    ensures |ds| == MAX_CUSTOM && forall i :: 0 <= i < MAX_CUSTOM ==> ds[i] == (i + 1, 1)
  {
    seq(MAX_CUSTOM, i => (i + 1, 1))
  }

  function OneId(): (ds: seq<(int, int)>)
    ensures |ds| == MAX_CUSTOM
  {
    Fill(MAX_CUSTOM - 1, (-1, -1)) + [(100, 1)]
  }

  lemma ManyIdsAdded()
    ensures AddAll([], ManyIds()) == Pairs(ManyIds()) && Distinct(Pairs(ManyIds())) && Ids(Pairs(ManyIds()))
  {
    hide AddAll;
    var ds := ManyIds();
    assert ds[..MAX_CUSTOM] == ds;
    assert Compact(ds, MAX_CUSTOM);
    AddAllCompact([], ds, MAX_CUSTOM, MAX_CUSTOM);
  }

  lemma OneMoreAdded(ds: seq<(nat, nat)>)
    requires Distinct(ds) && Ids(ds) && (100, 1) !in ds
    ensures |AddAll(ds, OneId())| > |ds|
  {
    var r := AddAll(ds, OneId());
    AddAllKeeps(ds, OneId());
    assert (100, 1) in r;
    assert |r| == |ds| ==> r == ds;
  }

  /** Two saves, of 64 device ids and of one other, leave a file that read_cfg reads past the end of its list. */
  lemma TwoSavesOverflow()
    ensures var many, one := DefaultCfg<real>(1.0).(devid := ManyIds()), DefaultCfg<real>(1.0).(devid := OneId());
            History([many, one]) && ReadFrom(FileAfter([many, one]), Start()).Overflowed()
  {
    hide FileAfter, ReadFrom, DefaultCfg, Printable, AddAll, DeadAfter;
    var many, one := DefaultCfg<real>(1.0).(devid := ManyIds()), DefaultCfg<real>(1.0).(devid := OneId());
    DefaultPrintable();
    OnlyIdsChange(DefaultCfg(1.0), ManyIds());
    OnlyIdsChange(DefaultCfg(1.0), OneId());
    MeaningSnoc([], many);
    MeaningSnoc([many], one);
    assert [] + [many] == [many] && [many] + [one] == [many, one];
    ManyIdsAdded();
    OneMoreAdded(Pairs(ManyIds()));
    OverflowIff([many, one]);
  }

  lemma OnlyIdsChange(c: Cfg<real>, ds: seq<(int, int)>)
    requires Printable(c) && |ds| == MAX_CUSTOM
    ensures Printable(c.(devid := ds))
  {
  }

  lemma {:induction false} MeaningIds(h: seq<Cfg<real>>)
    requires History(h)
    ensures Distinct(Meaning(h).devs) && Ids(Meaning(h).devs)
  {
    if h != [] {
      MeaningIds(h[..|h| - 1]);
      assert DevIds(h[|h| - 1].devid);
      AddAllKeeps(Meaning(h[..|h| - 1]).devs, h[|h| - 1].devid);
    }
  }

  lemma {:induction false} MeaningDead(h: seq<Cfg<real>>)
    requires History(h)
    ensures Meaning(h).cfg.Shaped() && !AllTwo(Meaning(h).cfg.dead)
  {
    hide Printable;
    HistoryStands(h);
  }

  /**
   The last save wins: reloading returns the configuration saved last if and only
   if its values print faithfully, its dead zones are not 64 twos nor the default
   vector over a common dead-zone line, and its device list continues the one in
   the file.
   */
  lemma LastSaveWins(h: seq<Cfg<real>>, c: Cfg<real>)
    requires History(h) && Printable(c) && DevIds(c.devid)
    requires |AddAll(Meaning(h).devs, c.devid)| <= MAX_CUSTOM
    ensures History(h + [c])
    ensures Read(FileAfter(h + [c])) == c <==>
              && Faithful(c)
              && !AllTwo(c.dead) && (c.dead == DefaultDead() ==> !Uniform(Meaning(h).cfg.dead))
              && exists n :: 0 <= n <= MAX_CUSTOM && Compact(c.devid, n) && Meaning(h).devs <= Pairs(c.devid[..n])
  {
    hide Printable, Meaning, AddAll, Normal, PadDevs, FileAfter, Reloaded, Faithful, Compact, Pairs;
    var e := Meaning(h);
    assert Meaning(h + [c]) == After(e, c) by { MeaningSnoc(h, c); }
    PrintableShaped(c);
    ReloadIs(h + [c]);
    MeaningDead(h);
    DeadSurvives(e.cfg.dead, c.dead);
    MeaningIds(h);
    DevsSurvive(e.devs, c.devid);
    NormalIffFaithful(c);
    ReloadedParts(e, c);
  }

  lemma MeaningSnoc(h: seq<Cfg<real>>, c: Cfg<real>)
    ensures Meaning(h + [c]) == After(Meaning(h), c)
  {
    hide After;
    assert (h + [c])[..|h|] == h;
  }

  lemma ReloadedParts(e: Effective, c: Cfg<real>)
    requires e.cfg.Shaped() && c.Shaped()
    ensures Reloaded(After(e, c)) == c <==>
              Normal(c) == c && DeadAfter(e.cfg.dead, c.dead) == c.dead && PadDevs(AddAll(e.devs, c.devid)) == c.devid
  {
    hide DeadAfter, AddAll, PadDevs, Grid, Word;
    assert Normal(c.(dead := DeadAfter(e.cfg.dead, c.dead))) == Normal(c).(dead := DeadAfter(e.cfg.dead, c.dead));
    assert Normal(c).devid == c.devid && Normal(c).dead == c.dead;
  }

  /** Saving the same configuration again writes the same file. */
  lemma SameFileTwice(h: seq<Cfg<real>>, c: Cfg<real>)
    requires Configs(h) && c.Shaped()
    ensures FileAfter(h + [c] + [c]) == FileAfter(h + [c])
  {
    hide Save, StandsFor, Text;
    HistoryStands(h);
    SaveTwice(Table(h), Meaning(h), c);
    assert (h + [c])[..|h|] == h && (h + [c] + [c])[..|h| + 1] == h + [c];
  }

  // ---- a reload between saves --------------------------------------------------------------

  lemma OffTokens()
    ensures Tokens("led = off") == Some(("led", "off"))
  {
    hide Strtok, Word, ScanInt, ScanReal;
    KeyTextIsName(Led);
    TokensOfLine("led", "off");
    SwitchWord("off");
    assert "led = off" == "led" + " = " + "off";
  }

  lemma OffParse(st: Reader)
    requires st.Valid()
    ensures ParseLine("led = off", st) == Parsed(Led, st.(cfg := st.cfg.(led := LED_OFF)))
  {
    hide Tokens, ParseKey, ScanInt, ScanReal, BoolWord, Word;
    OffTokens();
    ParseOfKeyText(Led);
    SwitchWord("off");
  }

  lemma OffNoBreak()
    ensures NoBreak("led = off")
  {
  }

  lemma ReadNothing(st: Reader)
    requires st.Valid()
    ensures ReadFrom("", st) == st
  {
  }

  lemma OffRead(st: Reader)
    requires st.Valid()
    ensures ReadFrom("led = off\n", st) == st.(cfg := st.cfg.(led := LED_OFF))
  {
    hide ParseLine, ReadFrom, NoBreak;
    OffParse(st);
    OffNoBreak();
    ReadNothing(ParseLine("led = off", st).st);
    ReadLine("led = off", "", st);
    assert "led = off" + "\n" + "" == "led = off\n";
  }

  lemma OffRemember(st: Reader)
    requires st.Valid()
    ensures RememberFrom("led = off\n", st) == [Line(Some("led = off"), Led, false)]
  {
    hide ParseLine, Chop;
    var t := "led = off\n";
    OffParse(st);
    SpanIs(t, Other('\n'), 9);
    assert FgetsLength(t) == 10;
    assert t[..10] == "led = off" + "\n" && t[10..] == "";
    ChopIs("led = off", true);
  }

  lemma DefaultWantsNothing(k: Key)
    requires Single(k)
    ensures Wanted(DefaultCfg(1.0), k) == None
  {
    hide Float3, Dec, Flags, BnactName;
    DefaultUneven();
  }

  lemma OffLineSettled(op: Op)
    requires Agrees(op, DefaultCfg(1.0)) && !op.PutDev?
    ensures Apply(op, [Line(Some("led = off"), Led, false)]) == [Line(Some("led = off"), Led, false)]
  {
    hide Agrees, KeyText, RmName, Wanted, DefaultCfg;
    var lines := [Line(Some("led = off"), Led, false)];
    DefaultDel(op);
    FindIsFirst(op, lines);
    if Find(op, lines).Some? {
      assert Named(lines[0], KeyText(Led)) by { OffLineNamed(); }
      if Named(lines[0], KeyText(op.key)) { KeyTextInjective(op.key, Led); }
    } else {
      assert lines + [] == lines;
    }
  }

  lemma OffLineNamed()
    ensures Named(Line(Some("led = off"), Led, false), KeyText(Led))
  {
    hide RmName;
    KeyTextIsName(Led);
    RmNameIs("led = off", "led");
  }

  lemma DefaultDel(op: Op)
    requires Agrees(op, DefaultCfg(1.0)) && !op.PutDev?
    ensures op.Del? && Single(op.key) && (op.key == Led ==> op.ownOnly)
  {
    hide Wanted, LineOf, Clip, DefaultCfg;
    DefaultWantsNothing(op.key);
  }

  lemma OffSaved()
    ensures Save([Line(Some("led = off"), Led, false)], DefaultCfg(1.0)) == [Line(Some("led = off"), Led, false)]
  {
    hide Script, Apply, Run, DefaultCfg, Agrees;
    var c := DefaultCfg<real>(1.0);
    var lines := [Line(Some("led = off"), Led, false)];
    ScriptAgrees(c);
    forall op | op in Script(c) ensures Apply(op, lines) == lines {
      if op.PutDev? { NoDefaultDevs(op); }
      OffLineSettled(op);
    }
    RunSettled(lines, Script(c));
  }

  /**
   Histories with a reload in between do not have the property: the LED is off in
   the file, the daemon reloads, the LED is switched back on and saved. The line
   is not the daemon's own, so it stays, and the next reload switches the LED off.
   */
  lemma ReloadBetweenSaves()
    ensures var lines := RememberFrom("led = off\n", Start());
            var c := Read("led = off\n").(led := LED_ON);
            Read(Text(Save(lines, c))) == c.(led := LED_OFF)
  {
    hide Save, ReadFrom, RememberFrom, DefaultCfg;
    OffRead(Start());
    OffRemember(Start());
    OffSaved();
    LedOnIsDefault();
    OffText();
  }

  lemma OffText()
    ensures Text([Line(Some("led = off"), Led, false)]) == "led = off\n"
  {
    var lines := [Line(Some("led = off"), Led, false)];
    assert lines[..0] == [];
    assert "" + ("led = off" + "\n") == "led = off\n";
  }

  lemma LedOnIsDefault()
    ensures DefaultCfg<real>(1.0).(led := LED_OFF).(led := LED_ON) == DefaultCfg(1.0)
  {
  }

  lemma NoDefaultDevs(op: Op)
    requires op.PutDev?
    ensures op !in Script(DefaultCfg(1.0))
  {
    hide Script;
    var c := DefaultCfg<real>(1.0);
    if op in Script(c) {
      ScriptDevOps(c, op);
      NoMarkerOps(c.devid);
    }
  }

  lemma {:induction false} NoMarkerOps(ds: seq<(int, int)>)
    requires forall i :: 0 <= i < |ds| ==> ds[i] == (-1, -1)
    ensures DevOps(ds) == []
  {
    if ds != [] { NoMarkerOps(ds[..|ds| - 1]); }
  }
}
