/**
 The tables met in any mixture of saves and reloads, and what one save does to them.

 After a reload no line is the daemon's own, and a line whose value read_cfg refuses
 is left untagged, which is the tag of repeat-interval: setting an option does not
 find it, removing the option does.
 */
module CfgShape {
  import opened Basics
  import opened CText
  import opened Config
  import opened CfgKeys
  import opened CfgTable
  import opened CfgWrite
  import opened CfgRead
  import opened CfgSave
  import opened CfgReload
  import opened CfgForeign

  // ---- lines -----------------------------------------------------------------------

  /** The option whose name a text carries. */
  function Title(t: string): Option<Key> {
    match RmName(t)
    case None => None
    case Some(n) => ParseKey(n)
  }

  function KeyAt(l: Line): Option<Key> {
    match l.text
    case None => None
    case Some(t) => Title(t)
  }

  /** A text that gives option k a value, as add_cfgopt prints it. */
  predicate Spells(t: string, k: Key) {
    && Saved(k) && KeyText(k) + " = " <= Body(t) && NoBreak(Body(t)) && |t| <= LINE_MAX
    && (t != Body(t) ==> k == Repeat)
  }

  // the value read_cfg finds in it
  function ValueIn(t: string, k: Key): string
    requires Spells(t, k)
  {
    Word(Body(t)[|KeyText(k)| + 3..])
  }

  /** read_cfg refuses the value and leaves the line untagged. */
  predicate Refuses(k: Key, w: string) {
    w == "" ||
    match k
    case AxisMap(_) => IntVal(w) < 0 || IntVal(w) >= 6
    case BnMap(_) => !ButtonIdx(IntVal(w))
    case BnHold(_) => !ButtonIdx(IntVal(w))
    case Hold => IntVal(w) < 0
    case _ => false
  }

  // options a save can print with a value that is refused
  predicate Refusable(k: Key) {
    k.AxisMap? || k.BnMap? || k.BnHold? || k.KbMap? || k == Hold || k == Serial || k == SockPath
  }

  predicate OptionText(t: string, k: Key) {
    Single(k) && Spells(t, k) && (Refuses(k, ValueIn(t, k)) ==> Refusable(k))
  }

  /** A comment, a blank or a line with an unknown name: neither reading nor saving finds an option in it. */
  predicate Unkeyed(t: string) { Title(t) == None && OptionOf(t) == None && NoBreak(t) && |t| <= LINE_MAX }

  /** A removed line, a device id, an option, an option that was refused while reading, or a line without an option. */
  predicate Formed(l: Line) {
    l.text.Some? ==>
      var t := l.text.value;
      if l.tag == DevId then TidyLine(l)
      else
        match Title(t)
        case None => l.tag == Repeat && Unkeyed(t)
        case Some(k) => OptionText(t, k) && (l.tag == k || (l.tag == Repeat && Refuses(k, ValueIn(t, k)) && !l.own))
  }

  // the line is the one setting option k finds
  predicate Settable(k: Key) { Single(k) && k != Repeat }

  /** After the line that holds an option there is no other line of that name. */
  ghost predicate Order(lines: seq<Line>) {
    forall i, j :: 0 <= i < j < |lines| && lines[i].text.Some? && Settable(lines[i].tag) ==>
      KeyAt(lines[j]) != Some(lines[i].tag)
  }

  ghost predicate Shape(lines: seq<Line>) {
    && (forall i :: 0 <= i < |lines| ==> Formed(lines[i]))
    && Order(lines) && Distinct(Devs(lines))
  }

  // ---- texts ---------------------------------------------------------------------------

  lemma TitleOf(t: string, k: Key)
    requires Saved(k) && KeyText(k) + " =" <= t
    ensures RmName(t) == Some(KeyText(k)) && Title(t) == Some(k)
  {
    hide RmName, KeyText, ParseKey;
    KeyTextIsName(k);
    RmNameIs(t, KeyText(k));
    ParseOfKeyText(k);
  }

  lemma EmptyUnkeyed()
    ensures Unkeyed("")
  {
  }

  // reading such a line does nothing
  lemma ParseUnkeyed(t: string, st: Reader)
    requires Unkeyed(t) && st.Valid()
    ensures Body(t) == t && ParseLine(Body(t), st) == Untagged(st)
  {
    hide Tokens, ParseKey, Title;
    assert t != "" ==> t[|t| - 1] != '\n';
  }

  lemma BodyPrefix(t: string)
    ensures Body(t) <= t
  {
  }

  lemma SpellsTitle(t: string, k: Key)
    requires Spells(t, k)
    ensures RmName(t) == Some(KeyText(k)) && Title(t) == Some(k) && t != ""
  {
    hide RmName, KeyText, ParseKey, NoBreak, Title;
    BodyPrefix(t);
    assert KeyText(k) + " =" <= KeyText(k) + " = ";
    TitleOf(t, k);
  }

  /** Reading the text stores its value, unless there is none. */
  lemma ParseSpelled(t: string, k: Key, st: Reader)
    requires Spells(t, k) && st.Valid()
    ensures var w := ValueIn(t, k);
            ParseLine(Body(t), st) == if w == "" then Untagged(st) else ParseOption(k, w, st)
  {
    hide Tokens, ParseKey, ParseOption, KeyText, Word, NoBreak;
    var v := Body(t)[|KeyText(k)| + 3..];
    KeyTextIsName(k);
    ParseOfKeyText(k);
    assert Body(t) == KeyText(k) + " = " + v;
    TokensOfLine(KeyText(k), v);
  }

  lemma RefusedTag(k: Key, w: string, st: Reader)
    requires Saved(k) && k != DevId && st.Valid() && w != ""
    ensures ParseOption(k, w, st).tag == if Refuses(k, w) then Repeat else k
    ensures Refuses(k, w) ==> ParseOption(k, w, st).st == st
  {
    hide ScanInt, ScanReal, BoolWord, ParseBnact, IsBoolVal, ScanDevId;
  }

  // ---- formed lines -----------------------------------------------------------------------

  /** Removing an option looks for its name, and finds the lines of that title. */
  lemma NamedIs(l: Line, k: Key)
    requires Formed(l) && Saved(k)
    ensures Named(l, KeyText(k)) <==> KeyAt(l) == Some(k)
  {
    hide RmName, KeyText, ParseKey, NoBreak, DevOf, Refuses, Word, Unkeyed;
    if l.text.Some? {
      var t := l.text.value;
      if l.tag == DevId {
        TitleFromName(l, DevId);
        if Named(l, KeyText(k)) { KeyTextInjective(k, DevId); }
      } else if Title(t).Some? {
        var j := Title(t).value;
        SpellsTitle(t, j);
        if Named(l, KeyText(k)) { KeyTextInjective(k, j); }
      } else if Named(l, KeyText(k)) {
        TitleFromName(l, k);
      }
    }
  }

  lemma TitleFromName(l: Line, k: Key)
    requires Saved(k) && Named(l, KeyText(k))
    ensures KeyAt(l) == Some(k)
  {
    hide RmName, KeyText, ParseKey;
    ParseOfKeyText(k);
  }

  // a line with the tag of an option has its title
  lemma TaggedTitle(l: Line, k: Key)
    requires Formed(l) && Tagged(l, k) && (Settable(k) || k == DevId)
    ensures KeyAt(l) == Some(k)
  {
    hide RmName, KeyText, ParseKey, DevOf, Spells, Refuses, Unkeyed;
    if k == DevId { TitleFromName(l, DevId); }
  }

  lemma FormedTag(l: Line)
    requires Formed(l) && l.text.Some?
    ensures l.tag == Repeat || l.tag == DevId || (Settable(l.tag) && KeyAt(l) == Some(l.tag))
    ensures KeyAt(l).Some? ==>
              Saved(KeyAt(l).value) && (KeyAt(l) == Some(DevId) <==> l.tag == DevId)
              && (KeyAt(l) == Some(Repeat) ==> l.tag == Repeat)
  {
    hide RmName, KeyText, ParseKey, DevOf, Spells, Refuses, Title, Unkeyed;
    if l.tag == DevId { TaggedTitle(l, DevId); }
  }

  lemma OtherDev(l: Line)
    requires l.tag != DevId || l.text.None?
    ensures DevOf(l) == None
  {
  }

  // ---- the line that holds an option ------------------------------------------------------

  function Slot(lines: seq<Line>, k: Key): Option<Line> {
    match Find(Put(k, ""), lines)
    case None => None
    case Some(i) => FindIsFirst(Put(k, ""), lines); Some(lines[i])
  }

  lemma TwoHolders(lines: seq<Line>, k: Key, i: nat, j: nat)
    requires Shape(lines) && Settable(k) && i < |lines| && j < |lines| && Tagged(lines[i], k) && Tagged(lines[j], k)
    ensures i == j
  {
    hide Formed, KeyAt, Devs;
    TaggedTitle(lines[i], k);
    TaggedTitle(lines[j], k);
  }

  lemma SlotIs(lines: seq<Line>, k: Key, i: nat)
    requires Shape(lines) && Settable(k) && i < |lines| && Tagged(lines[i], k)
    ensures Slot(lines, k) == Some(lines[i])
  {
    hide Shape, Settable;
    FindIsFirst(Put(k, ""), lines);
    TwoHolders(lines, k, Find(Put(k, ""), lines).value, i);
  }

  lemma SlotNone(lines: seq<Line>, k: Key)
    requires forall i :: 0 <= i < |lines| ==> !Tagged(lines[i], k)
    ensures Slot(lines, k) == None
  {
    FindIsFirst(Put(k, ""), lines);
  }

  lemma SlotHolder(lines: seq<Line>, k: Key) returns (i: nat)
    requires Slot(lines, k).Some?
    ensures i < |lines| && Tagged(lines[i], k) && Slot(lines, k) == Some(lines[i])
  {
    FindIsFirst(Put(k, ""), lines);
    i := Find(Put(k, ""), lines).value;
  }

  lemma SlotSet(lines: seq<Line>, i: nat, l: Line, k: Key)
    requires Shape(lines) && i < |lines| && Shape(lines[i := l]) && Settable(k)
    ensures Slot(lines[i := l], k) ==
              if Tagged(l, k) then Some(l) else if Tagged(lines[i], k) then None else Slot(lines, k)
  {
    hide Shape, Slot, Settable;
    var after := lines[i := l];
    if Tagged(l, k) {
      SlotIs(after, k, i);
    } else if Tagged(lines[i], k) {
      SlotIs(lines, k, i);
      forall j | 0 <= j < |after| ensures !Tagged(after[j], k) {
        if Tagged(after[j], k) { TwoHolders(lines, k, i, j); }
      }
      SlotNone(after, k);
    } else if Slot(lines, k).Some? {
      var j := SlotHolder(lines, k);
      SlotIs(after, k, j);
    } else {
      forall j | 0 <= j < |after| ensures !Tagged(after[j], k) {
        if Tagged(after[j], k) { SlotIs(lines, k, j); }
      }
      SlotNone(after, k);
    }
  }

  lemma SlotAdd(lines: seq<Line>, l: Line, k: Key)
    requires Shape(lines) && Shape(lines + [l]) && Settable(k)
    ensures Slot(lines + [l], k) == if Tagged(l, k) then Some(l) else Slot(lines, k)
  {
    hide Shape, Slot, Settable;
    var after := lines + [l];
    if Tagged(l, k) {
      SlotIs(after, k, |lines|);
    } else if Slot(lines, k).Some? {
      var j := SlotHolder(lines, k);
      SlotIs(after, k, j);
    } else {
      forall j | 0 <= j < |after| ensures !Tagged(after[j], k) {
        if Tagged(after[j], k) { SlotIs(lines, k, j); }
      }
      SlotNone(after, k);
    }
  }
  // ---- changing one line --------------------------------------------------------------------

  lemma ShapeSet(lines: seq<Line>, i: nat, l: Line)
    requires Shape(lines) && i < |lines| && Formed(l) && DevOf(l) == DevOf(lines[i])
    requires l.text.Some? ==>
               lines[i].text.Some? && l.tag == lines[i].tag && (KeyAt(l) == KeyAt(lines[i]) || KeyAt(l) == Some(Repeat))
    ensures Shape(lines[i := l])
  {
    hide Formed, Title, DevOf;
    DevsUpdate(lines, i, l);
  }

  lemma OrderAdd(lines: seq<Line>, l: Line)
    requires Order(lines)
    requires l.text.Some? ==> forall i :: 0 <= i < |lines| && Settable(lines[i].tag) ==>
               lines[i].text.None? || KeyAt(l) != Some(lines[i].tag)
    ensures Order(lines + [l])
  {
    hide Title, Settable;
    var after := lines + [l];
    forall i, j | 0 <= i < j < |after| && after[i].text.Some? && Settable(after[i].tag)
      ensures KeyAt(after[j]) != Some(after[i].tag)
    {
      if j < |lines| { assert after[i] == lines[i] && after[j] == lines[j]; }
    }
  }

  lemma ShapeAdd(lines: seq<Line>, l: Line)
    requires Shape(lines) && Formed(l)
    requires l.text.Some? ==> forall i :: 0 <= i < |lines| && Settable(lines[i].tag) ==>
               lines[i].text.None? || KeyAt(l) != Some(lines[i].tag)
    requires DevOf(l).Some? ==> DevOf(l).value !in Devs(lines)
    ensures Shape(lines + [l])
  {
    hide Formed, Title, DevOf, Order, Devs, KeyAt, Settable;
    OrderAdd(lines, l);
    DevsAppend(lines, l);
  }

  /** The line is option k, refused by read_cfg. */
  predicate RefusedLine(l: Line, k: Key) { Tagged(l, Repeat) && KeyAt(l) == Some(k) }

  ghost predicate HasRefused(lines: seq<Line>, k: Key) { exists i :: 0 <= i < |lines| && RefusedLine(lines[i], k) }

  lemma RefusedSet(lines: seq<Line>, i: nat, l: Line, k: Key)
    requires i < |lines| && !RefusedLine(lines[i], k) && !RefusedLine(l, k)
    ensures HasRefused(lines[i := l], k) <==> HasRefused(lines, k)
  {
    hide RefusedLine;
    var after := lines[i := l];
    if HasRefused(lines, k) { var j :| 0 <= j < |lines| && RefusedLine(lines[j], k); assert RefusedLine(after[j], k); }
    if HasRefused(after, k) { var j :| 0 <= j < |after| && RefusedLine(after[j], k); assert RefusedLine(lines[j], k); }
  }

  lemma RefusedAdd(lines: seq<Line>, l: Line, k: Key)
    requires !RefusedLine(l, k)
    ensures HasRefused(lines + [l], k) <==> HasRefused(lines, k)
  {
    hide RefusedLine;
    var after := lines + [l];
    if HasRefused(lines, k) { var j :| 0 <= j < |lines| && RefusedLine(lines[j], k); assert RefusedLine(after[j], k); }
    if HasRefused(after, k) { var j :| 0 <= j < |after| && RefusedLine(after[j], k); assert RefusedLine(lines[j], k); }
  }

  // ---- the lines a save prints -----------------------------------------------------------------

  /** A printed option spells it, with the first word of the printed value. */
  lemma PrintedSpells(c: Cfg<real>, k: Key)
    requires Printable(c) && Single(k) && Wanted(c, k).Some?
    ensures var t := LineOf(k, Wanted(c, k).value);
            Clip(t) == t && Spells(t, k) && ValueIn(t, k) == Word(Wanted(c, k).value)
  {
    hide Wanted, KeyText, Word, Dec;
    var v := Wanted(c, k).value;
    var t := LineOf(k, v);
    WantedFits(c, k);
    LineReadable(c, k);
    if k.Repeat? {
      var w := Dec(c.repeat);
      assert t == KeyText(k) + " = " + w + "\n";
      assert Body(t) == KeyText(k) + " = " + w && Body(t)[|KeyText(k)| + 3..] == w;
      WordIs(w, "\n");
      WordOfWord(w);
    } else {
      BodyOfLine(k, v);
      assert Body(t)[|KeyText(k)| + 3..] == v;
    }
  }

  lemma PrintedFormed(c: Cfg<real>, k: Key, own: bool)
    requires Printable(c) && Single(k) && Wanted(c, k).Some?
    ensures var l := Line(Some(LineOf(k, Wanted(c, k).value)), k, own);
            Formed(l) && KeyAt(l) == Some(k) && DevOf(l) == None
  {
    hide Wanted, Word, Title, Spells, LineOf, Refuses, Refusable, ValueIn, Unkeyed;
    var t := LineOf(k, Wanted(c, k).value);
    PrintedSpells(c, k);
    SpellsTitle(t, k);
    if !Refusable(k) {
      PrintedWord(c, k);
      NotRefused(k, ValueIn(t, k));
    }
  }

  lemma PrintedWord(c: Cfg<real>, k: Key)
    requires c.Shaped() && Single(k) && !Refusable(k) && Wanted(c, k).Some?
    ensures Word(Wanted(c, k).value) != ""
  {
    hide Wanted, Word;
    NonEmptyWord(c, k);
  }

  lemma NotRefused(k: Key, w: string)
    requires !Refusable(k) && w != ""
    ensures !Refuses(k, w)
  {
  }

  // ---- one step on such a table -----------------------------------------------------------------

  /**
   What a step that decides option k makes of its line: it is written, or it stays when a
   refused line of that name comes first or when only the daemon's own lines are removed.
   */
  function Fate(slot: Option<Line>, refused: bool, c: Cfg<real>, k: Key): Option<Line>
    requires c.Shaped() && Settable(k)
  {
    match Wanted(c, k)
    case Some(v) => Some(Line(Some(LineOf(k, v)), k, if slot.Some? then slot.value.own else true))
    case None => if slot.Some? && (refused || (OwnOnly(c, k) && !slot.value.own)) then slot else None
  }

  lemma PutText(op: Op, c: Cfg<real>)
    requires Printable(c) && op.Put? && Agrees(op, c)
    ensures Single(op.key) && Wanted(c, op.key).Some?
    ensures Clip(LineOf(op.key, op.val)) == LineOf(op.key, Wanted(c, op.key).value)
  {
    hide Wanted, LineOf, Clip;
    if Wanted(c, op.key).Some? { PrintedSpells(c, op.key); }
  }

  lemma PutShape(op: Op, lines: seq<Line>, c: Cfg<real>)
    requires Shape(lines) && Printable(c) && op.Put? && Agrees(op, c)
    ensures Shape(Apply(op, lines))
    ensures forall k :: Settable(k) ==>
              Slot(Apply(op, lines), k) ==
                if k == op.key then Fate(Slot(lines, k), HasRefused(lines, k), c, k) else Slot(lines, k)
    ensures op.key != Repeat ==> forall k :: HasRefused(Apply(op, lines), k) <==> HasRefused(lines, k)
    ensures Devs(Apply(op, lines)) == Devs(lines)
  {
    hide Formed, Title, LineOf, Clip, Wanted, Agrees, Slot, HasRefused, Order, Devs, DevOf;
    PutText(op, c);
    FindIsFirst(op, lines);
    var after := Apply(op, lines);
    var own := match Find(op, lines) case None => true case Some(j) => lines[j].own;
    var l := Line(Some(LineOf(op.key, Wanted(c, op.key).value)), op.key, own);
    PrintedFormed(c, op.key, own);
    match Find(op, lines) {
      case Some(j) =>
        assert after == lines[j := l];
        OtherDev(lines[j]);
        FormedTag(lines[j]);
        ShapeSet(lines, j, l);
        DevsUpdate(lines, j, l);
        forall k | Settable(k)
          ensures Slot(after, k) ==
                    if k == op.key then Fate(Slot(lines, k), HasRefused(lines, k), c, k) else Slot(lines, k)
        {
          SlotSet(lines, j, l, k);
          if k == op.key { SlotIs(lines, k, j); }
        }
        forall k | op.key != Repeat
          ensures HasRefused(after, k) <==> HasRefused(lines, k)
        {
          RefusedSet(lines, j, l, k);
        }
      case None =>
        assert after == lines + [l];
        ShapeAdd(lines, l);
        DevsAppend(lines, l);
        forall k | Settable(k)
          ensures Slot(after, k) ==
                    if k == op.key then Fate(Slot(lines, k), HasRefused(lines, k), c, k) else Slot(lines, k)
        {
          SlotAdd(lines, l, k);
          if k == op.key { SlotNone(lines, k); }
        }
        forall k | op.key != Repeat ensures HasRefused(after, k) <==> HasRefused(lines, k) { RefusedAdd(lines, l, k); }
    }
  }
  lemma DelWants(op: Op, c: Cfg<real>)
    requires c.Shaped() && op.Del? && Agrees(op, c)
    ensures Single(op.key) && Wanted(c, op.key).None? && op.ownOnly == OwnOnly(c, op.key)
  {
    hide Wanted, LineOf, Clip, OwnOnly;
  }

  lemma GoneFormed(l: Line)
    requires l.text.None?
    ensures Formed(l) && DevOf(l) == None && KeyAt(l) == None
  {
  }

  // the line removing option k finds is its refused one, if there is one, and else the one that holds it
  lemma FirstOfName(lines: seq<Line>, k: Key, j: nat)
    requires Shape(lines) && Settable(k) && j < |lines| && KeyAt(lines[j]) == Some(k)
    requires forall h :: 0 <= h < j ==> KeyAt(lines[h]) != Some(k)
    ensures if HasRefused(lines, k) then RefusedLine(lines[j], k) else Tagged(lines[j], k)
  {
    hide Formed, Title, Devs;
    FormedTag(lines[j]);
    if HasRefused(lines, k) {
      var i :| 0 <= i < |lines| && RefusedLine(lines[i], k);
    }
  }

  lemma DelSlot(op: Op, lines: seq<Line>, c: Cfg<real>, j: nat, l: Line)
    requires Shape(lines) && c.Shaped() && op.Del? && Agrees(op, c) && Settable(op.key)
    requires j < |lines| && l == Edit(op, lines[j]) && Shape(lines[j := l]) && KeyAt(lines[j]) == Some(op.key)
    requires forall h :: 0 <= h < j ==> KeyAt(lines[h]) != Some(op.key)
    ensures Slot(lines[j := l], op.key) == Fate(Slot(lines, op.key), HasRefused(lines, op.key), c, op.key)
  {
    hide Formed, Title, Wanted, Agrees, OwnOnly, Shape, Slot, HasRefused;
    DelWants(op, c);
    FirstOfName(lines, op.key, j);
    SlotSet(lines, j, l, op.key);
    if !HasRefused(lines, op.key) { SlotIs(lines, op.key, j); }
  }

  lemma DelShape(op: Op, lines: seq<Line>, c: Cfg<real>)
    requires Shape(lines) && c.Shaped() && op.Del? && Agrees(op, c)
    ensures Shape(Apply(op, lines))
    ensures forall k :: Settable(k) ==>
              Slot(Apply(op, lines), k) ==
                if k == op.key then Fate(Slot(lines, k), HasRefused(lines, k), c, k) else Slot(lines, k)
    ensures forall k :: k != op.key ==> (HasRefused(Apply(op, lines), k) <==> HasRefused(lines, k))
    ensures Devs(Apply(op, lines)) == Devs(lines)
  {
    hide Formed, Title, Wanted, Agrees, Slot, HasRefused, Order, Devs, DevOf, Named, KeyText, OwnOnly, Fate;
    DelWants(op, c);
    FindIsFirst(op, lines);
    var after := Apply(op, lines);
    forall i | 0 <= i < |lines|
      ensures Hit(op, lines[i]) <==> KeyAt(lines[i]) == Some(op.key)
    {
      NamedIs(lines[i], op.key);
    }
    match Find(op, lines) {
      case Some(j) =>
        var l := Edit(op, lines[j]);
        FormedTag(lines[j]);
        OtherDev(lines[j]);
        OtherDev(l);
        if l.text.None? { GoneFormed(l); }
        ShapeSet(lines, j, l);
        DevsUpdate(lines, j, l);
        forall k | Settable(k)
          ensures Slot(after, k) ==
                    if k == op.key then Fate(Slot(lines, k), HasRefused(lines, k), c, k) else Slot(lines, k)
        {
          if k == op.key { DelSlot(op, lines, c, j, l); } else { SlotSet(lines, j, l, k); }
        }
        forall k | k != op.key ensures HasRefused(after, k) <==> HasRefused(lines, k) { RefusedSet(lines, j, l, k); }
      case None =>
        assert after == lines;
        forall k | Settable(k)
          ensures Slot(after, k) ==
                    if k == op.key then Fate(Slot(lines, k), HasRefused(lines, k), c, k) else Slot(lines, k)
        {
          if k == op.key { NoneHolds(lines, c, k); }
        }
    }
  }

  lemma NoneHolds(lines: seq<Line>, c: Cfg<real>, k: Key)
    requires Shape(lines) && c.Shaped() && Settable(k) && Wanted(c, k).None?
    requires forall i :: 0 <= i < |lines| ==> KeyAt(lines[i]) != Some(k)
    ensures Slot(lines, k) == None && Fate(Slot(lines, k), HasRefused(lines, k), c, k) == None
  {
    hide Formed, Title, Wanted, OwnOnly, HasRefused;
    forall i | 0 <= i < |lines| ensures !Tagged(lines[i], k) {
      if Tagged(lines[i], k) { TaggedTitle(lines[i], k); }
    }
    SlotNone(lines, k);
  }

  lemma DevShape(op: Op, lines: seq<Line>)
    requires Shape(lines) && op.PutDev?
    ensures Shape(Apply(op, lines))
    ensures forall k :: Settable(k) ==> Slot(Apply(op, lines), k) == Slot(lines, k)
    ensures forall k :: HasRefused(Apply(op, lines), k) <==> HasRefused(lines, k)
    ensures Devs(Apply(op, lines)) == DevsAfter(op, Devs(lines))
  {
    hide Formed, Title, LineOf, DevIdText, Slot, HasRefused, Order, Devs, DevOf, ToUint;
    var d := (ToUint(op.vid), ToUint(op.pid));
    FindIsFirst(op, lines);
    DevsMember(lines, d);
    var after := Apply(op, lines);
    var own := match Find(op, lines) case None => false case Some(j) => lines[j].own;
    var l := Line(Some(LineOf(DevId, DevIdText(op.vid, op.pid))), DevId, own);
    DevFormed(op.vid, op.pid, own);
    match Find(op, lines) {
      case Some(j) =>
        DevTagged(lines[j]);
        TaggedTitle(lines[j], DevId);
        ShapeSet(lines, j, l);
        DevsUpdate(lines, j, l);
        forall k | Settable(k) ensures Slot(after, k) == Slot(lines, k) { SlotSet(lines, j, l, k); }
        forall k ensures HasRefused(after, k) <==> HasRefused(lines, k) { RefusedSet(lines, j, l, k); }
      case None =>
        var blanked := lines + [BLANK];
        assert after == blanked + [l];
        GoneFormed(BLANK);
        ShapeAdd(lines, BLANK);
        DevsAppend(lines, BLANK);
        DevTitle(lines, l);
        ShapeAdd(blanked, l);
        DevsAppend(blanked, l);
        forall k | Settable(k)
          ensures Slot(after, k) == Slot(lines, k)
        {
          SlotAdd(lines, BLANK, k);
          SlotAdd(blanked, l, k);
        }
        forall k
          ensures HasRefused(after, k) <==> HasRefused(lines, k)
        {
          RefusedAdd(lines, BLANK, k);
          RefusedAdd(blanked, l, k);
        }
    }
  }

  lemma DevFormed(v: int, p: int, own: bool)
    ensures var l := Line(Some(LineOf(DevId, DevIdText(v, p))), DevId, own);
            Formed(l) && KeyAt(l) == Some(DevId) && DevOf(l) == Some((ToUint(v), ToUint(p)))
  {
    hide DevOf, DevIdText, Title, ToUint, TidyLine;
    var l := Line(Some(LineOf(DevId, DevIdText(v, p))), DevId, own);
    DevLine(v, p, own);
    TaggedTitle(l, DevId);
  }

  // no line holds the option device-id
  lemma DevTitle(lines: seq<Line>, l: Line)
    requires KeyAt(l) == Some(DevId)
    ensures forall i :: 0 <= i < |lines| + 1 && Settable((lines + [BLANK])[i].tag) ==>
              KeyAt(l) != Some((lines + [BLANK])[i].tag)
  {
  }

  /** One step of a save keeps the shape, and decides exactly the option it touches. */
  lemma StepShape(op: Op, lines: seq<Line>, c: Cfg<real>)
    requires Shape(lines) && Printable(c) && Agrees(op, c)
    ensures Shape(Apply(op, lines)) && Devs(Apply(op, lines)) == DevsAfter(op, Devs(lines))
    ensures forall k :: Settable(k) ==>
              Slot(Apply(op, lines), k) ==
                if Touches(op, k) then Fate(Slot(lines, k), HasRefused(lines, k), c, k) else Slot(lines, k)
    ensures forall k :: !Touches(op, k) && !IsPutRepeat(op) ==>
              (HasRefused(Apply(op, lines), k) <==> HasRefused(lines, k))
  {
    hide Shape, Apply, Slot, HasRefused, Agrees, Fate, Devs;
    match op
    case Put(_, _) => PutShape(op, lines, c);
    case Del(_, _) => DelShape(op, lines, c);
    case PutDev(_, _) => DevShape(op, lines);
  }
}
