/**
 The table a reload remembers from a file that saves and reloads have written.
 */
module CfgRemember {
  import opened Basics
  import opened CText
  import opened Config
  import opened CfgKeys
  import opened CfgTable
  import opened CfgWrite
  import opened CfgRead
  import opened CfgSave
  import opened CfgReload
  import opened CfgForeign
  import opened CfgShape
  import opened CfgReread

  const EMPTY := Line(Some(""), Repeat, false)

  function ReadTag(t: string): Key { ParseLine(Body(t), Start()).tag }

  // the newline after the text is read as a line of its own
  predicate Spills(t: string) { t != Body(t) || |t| == LINE_MAX }

  /** The lines a reload makes of one line. */
  function Kept(l: Line): seq<Line> {
    match l.text
    case None => []
    case Some(t) => [Line(Some(Body(t)), ReadTag(t), false)] + if Spills(t) then [EMPTY] else []
  }

  function Reread(lines: seq<Line>): seq<Line> {
    if lines == [] then [] else Reread(lines[..|lines| - 1]) + Kept(lines[|lines| - 1])
  }

  // ---- what is remembered ---------------------------------------------------------------------

  lemma RememberBlank(rest: string, st: Reader)
    requires st.Valid()
    ensures RememberFrom("\n" + rest, st) == [EMPTY] + RememberFrom(rest, st)
  {
    hide Strtok;
    var text := "\n" + rest;
    SpanIs(text, Other('\n'), 0);
    assert text[..1] == "" + "\n" && text[1..] == rest;
    ChopIs("", true);
    assert Tokens("") == None;
  }

  // what fgets takes of a text that starts with a whole line
  lemma LineCut(t: string, rest: string)
    requires NoBreak(t) && |t| <= LINE_MAX
    ensures var text := t + "\n" + rest;
            var n := FgetsLength(text);
            && text != "" && Chop(text[..n]) == t
            && text[n..] == if |t| < LINE_MAX then rest else "\n" + rest
  {
    var text := t + "\n" + rest;
    SpanIs(text, Other('\n'), |t|);
    var n := FgetsLength(text);
    if |t| < LINE_MAX {
      assert text[..n] == t + "\n" && text[n..] == rest;
      ChopIs(t, true);
    } else {
      assert text[..n] == t && text[n..] == "\n" + rest;
      ChopIs(t, false);
    }
  }

  lemma RememberLine(t: string, rest: string, st: Reader)
    requires st.Valid() && NoBreak(t) && |t| <= LINE_MAX
    ensures var p := ParseLine(t, st);
            RememberFrom(t + "\n" + rest, st)
            == [Line(Some(t), p.tag, false)] + (if |t| == LINE_MAX then [EMPTY] else []) + RememberFrom(rest, p.st)
  {
    hide ParseLine, FgetsLength, Chop, NoBreak;
    LineCut(t, rest);
    var p := ParseLine(t, st);
    RememberBlank(rest, p.st);
    var l := Line(Some(t), p.tag, false);
    assert [l] + ([EMPTY] + RememberFrom(rest, p.st)) == [l] + [EMPTY] + RememberFrom(rest, p.st);
    assert [l] + [] + RememberFrom(rest, p.st) == [l] + RememberFrom(rest, p.st);
  }

  lemma RememberBody(t: string, rest: string, st: Reader)
    requires st.Valid() && Readable(t)
    ensures var p := ParseLine(Body(t), st);
            RememberFrom(t + "\n" + rest, st)
            == [Line(Some(Body(t)), p.tag, false)] + (if Spills(t) then [EMPTY] else []) + RememberFrom(rest, p.st)
  {
    hide RememberFrom, ParseLine, NoBreak;
    if Body(t) != t {
      assert t == Body(t) + "\n";
      assert t + "\n" + rest == Body(t) + "\n" + ("\n" + rest);
      RememberLine(Body(t), "\n" + rest, st);
      RememberBlank(rest, ParseLine(Body(t), st).st);
    } else {
      RememberLine(t, rest, st);
    }
  }

  // the tag does not depend on what was read before
  lemma TagLocal(l: Line, st: Reader)
    requires Formed(l) && l.text.Some? && st.Valid()
    ensures ParseLine(Body(l.text.value), st).tag == ReadTag(l.text.value)
  {
    hide ParseLine, ParseOption, Spells, Title, Body, ValueIn, TidyLine, DevOf, DevIdText, Unkeyed;
    var t := l.text.value;
    if l.tag == DevId {
      DevTag(l, st);
      DevTag(l, Start());
    } else if Title(t) == None {
      ParseUnkeyed(t, st);
      ParseUnkeyed(t, Start());
    } else {
      var k := Title(t).value;
      ParseSpelled(t, k, st);
      ParseSpelled(t, k, Start());
      if ValueIn(t, k) != "" {
        RefusedTag(k, ValueIn(t, k), st);
        RefusedTag(k, ValueIn(t, k), Start());
      }
    }
  }

  lemma DevTag(l: Line, st: Reader)
    requires TidyLine(l) && Tagged(l, DevId) && st.Valid()
    ensures ParseLine(Body(l.text.value), st).tag == DevId
  {
    hide ParseLine, TidyLine, DevOf, DevIdText, ScanDevId;
    TidyDev(l);
    ParseDevLine(l, st);
  }

  lemma {:induction false} RememberText(lines: seq<Line>, tail: string)
    requires AllReadable(lines) && forall i :: 0 <= i < |lines| ==> Formed(lines[i])
    ensures RememberFrom(Text(lines) + tail, Start()) == Reread(lines) + RememberFrom(tail, Fold(lines))
  {
    hide RememberFrom, ParseLine, Readable, Start, Formed, ReadTag, Spills;
    if lines == [] {
      assert "" + tail == tail;
    } else {
      var pre, last := lines[..|lines| - 1], lines[|lines| - 1];
      match last.text
      case None =>
        assert Text(pre) + "" == Text(pre);
        RememberText(pre, tail);
      case Some(t) =>
        assert Text(lines) + tail == Text(pre) + (t + "\n" + tail);
        RememberText(pre, t + "\n" + tail);
        RememberBody(t, tail, Fold(pre));
        TagLocal(last, Fold(pre));
    }
  }

  lemma RememberIs(lines: seq<Line>)
    requires Shape(lines)
    ensures RememberFrom(Text(lines), Start()) == Reread(lines)
  {
    hide RememberFrom, Formed, Order, Devs, Reread, Fold, AllReadable;
    ShapeReadable(lines);
    RememberText(lines, "");
    assert Text(lines) + "" == Text(lines);
    RememberNothing(Fold(lines));
  }

  lemma RememberNothing(st: Reader)
    requires st.Valid()
    ensures RememberFrom("", st) == []
  {
  }

  // ---- its shape --------------------------------------------------------------------------------------

  lemma BodyTwice(t: string)
    requires NoBreak(Body(t))
    ensures Body(Body(t)) == Body(t)
  {
  }

  // the line a reload makes of an option
  lemma KeptOption(t: string, k: Key)
    requires OptionText(t, k)
    ensures var l := Line(Some(Body(t)), ReadTag(t), false);
            Formed(l) && KeyAt(l) == Some(k) && l.tag == if Refuses(k, ValueIn(t, k)) then Repeat else k
  {
    hide ParseLine, ParseOption, KeyText, Title, Refuses, NoBreak, Word, Body;
    ParseSpelled(t, k, Start());
    BodyTwice(t);
    BodyPrefix(t);
    SpellsTitle(Body(t), k);
    assert ValueIn(Body(t), k) == ValueIn(t, k);
    if ValueIn(t, k) != "" {
      RefusedTag(k, ValueIn(t, k), Start());
    } else {
      assert Refuses(k, "") by { EmptyRefused(k); }
    }
  }

  lemma EmptyRefused(k: Key)
    ensures Refuses(k, "")
  {
  }

  lemma KeptDev(l: Line)
    requires TidyLine(l) && Tagged(l, DevId)
    ensures var t := l.text.value; Body(t) == t && !Spills(t)
    ensures var r := Line(Some(Body(l.text.value)), ReadTag(l.text.value), false);
            Formed(r) && r.tag == DevId && DevOf(r) == DevOf(l)
  {
    hide ParseLine, DevOf, DevIdText, KeyText, ReadTag, RmName;
    var v, p := DevOf(l).value.0, DevOf(l).value.1;
    TidyDev(l);
    DevBody(v, p);
    DevTag(l, Start());
    assert ReadTag(l.text.value) == DevId by { DevReadTag(l); }
    DevOfUint(l);
    DevFormed(v, p, false);
  }

  lemma DevReadTag(l: Line)
    requires TidyLine(l) && Tagged(l, DevId)
    ensures ReadTag(l.text.value) == DevId
  {
    hide ParseLine, TidyLine;
    DevTag(l, Start());
  }

  lemma DevBody(v: nat, p: nat)
    ensures var t := LineOf(DevId, DevIdText(v, p)); Body(t) == t && !Spills(t)
  {
    hide Hex4, ToUint;
    BodyOfLine(DevId, DevIdText(v, p)) by { DevTextFits(v, p); }
    Hex4Length(ToUint(v));
    Hex4Length(ToUint(p));
  }

  /** A reload makes at most one line with a title of each line; only an accepted option is tagged. */
  lemma KeptLine(l: Line)
    requires Formed(l) && l.text.Some?
    ensures var r := Kept(l)[0];
            && Formed(r) && KeyAt(r) == KeyAt(l) && DevOf(r) == DevOf(l)
            && (Settable(r.tag) ==> r.tag == l.tag) && (r.tag == DevId <==> l.tag == DevId)
    ensures 1 <= |Kept(l)| <= 2 && (|Kept(l)| == 2 ==> Kept(l)[1] == EMPTY && l.tag != DevId)
  {
    hide ParseLine, ReadTag, Spells, Title, Body, ValueIn, TidyLine, DevOf, Refuses, Spills;
    var t := l.text.value;
    if l.tag == DevId {
      KeptDev(l);
      FormedTag(l);
      FormedTag(Kept(l)[0]);
    } else if Title(t) == None {
      assert Body(t) == t && ReadTag(t) == Repeat by { UnkeyedTag(t); }
      OtherDev(l);
      OtherDev(Kept(l)[0]);
    } else {
      OtherDev(l);
      KeptOption(t, Title(t).value);
      OtherDev(Kept(l)[0]);
    }
  }

  lemma UnkeyedTag(t: string)
    requires Unkeyed(t)
    ensures Body(t) == t && ReadTag(t) == Repeat
  {
    hide ParseLine, Unkeyed;
    ParseUnkeyed(t, Start());
  }

  lemma EmptyFormed()
    ensures Formed(EMPTY) && KeyAt(EMPTY) == None && DevOf(EMPTY) == None
  {
    EmptyUnkeyed();
  }

  lemma ShapePrefix(lines: seq<Line>)
    requires Shape(lines) && lines != []
    ensures Shape(lines[..|lines| - 1])
    ensures DevOf(lines[|lines| - 1]).Some? ==> DevOf(lines[|lines| - 1]).value !in Devs(lines[..|lines| - 1])
  {
    hide Formed, KeyAt, DevOf;
    var ds := Devs(lines[..|lines| - 1]);
    if DevOf(lines[|lines| - 1]).Some? {
      assert Devs(lines)[|ds|] == DevOf(lines[|lines| - 1]).value;
      assert forall i :: 0 <= i < |ds| ==> Devs(lines)[i] == ds[i];
    }
  }

  // some line holds option k
  ghost predicate Holding(lines: seq<Line>, k: Key) { exists i :: 0 <= i < |lines| && Tagged(lines[i], k) }

  lemma {:induction false} RereadHolds(lines: seq<Line>, k: Key)
    requires (forall i :: 0 <= i < |lines| ==> Formed(lines[i])) && Settable(k) && Holding(Reread(lines), k)
    ensures Holding(lines, k)
  {
    hide Formed, KeyAt, DevOf, Kept, Tagged;
    if lines != [] {
      var pre, l := lines[..|lines| - 1], lines[|lines| - 1];
      var i :| 0 <= i < |Reread(lines)| && Tagged(Reread(lines)[i], k);
      if i < |Reread(pre)| {
        assert Holding(Reread(pre), k);
        RereadHolds(pre, k);
        var j :| 0 <= j < |pre| && Tagged(pre[j], k);
        assert Tagged(lines[j], k);
      } else {
        var x := Kept(l)[i - |Reread(pre)|];
        assert x in Kept(l) && Tagged(x, k);
        KeptHolds(l, x, k);
        assert Tagged(lines[|lines| - 1], k);
      }
    }
  }

  lemma KeptHolds(l: Line, x: Line, k: Key)
    requires Formed(l) && x in Kept(l) && Tagged(x, k) && Settable(k)
    ensures Tagged(l, k)
  {
    hide Formed, KeyAt, DevOf, ReadTag, Spills, Body;
    KeptLine(l);
  }

  /** The table of a reload has the shape, the same ids, and holds only options the table held. */
  lemma {:induction false} RereadShape(lines: seq<Line>)
    requires Shape(lines)
    ensures Shape(Reread(lines)) && Devs(Reread(lines)) == Devs(lines)
  {
    hide Formed, KeyAt, DevOf, Kept, Order, Distinct, Tagged;
    if lines != [] {
      var pre, l := lines[..|lines| - 1], lines[|lines| - 1];
      ShapePrefix(lines);
      RereadShape(pre);
      if l.text.Some? {
        KeptLine(l);
        RereadStep(lines, Reread(pre));
      } else {
        assert Kept(l) == [] by { GoneKept(l); }
        assert DevOf(l) == None by { OtherDev(l); }
        assert Reread(pre) + [] == Reread(pre);
      }
    }
  }

  lemma GoneKept(l: Line)
    requires l.text.None?
    ensures Kept(l) == []
  {
  }

  lemma RereadStep(lines: seq<Line>, back: seq<Line>)
    requires Shape(lines) && lines != [] && lines[|lines| - 1].text.Some?
    requires back == Reread(lines[..|lines| - 1]) && Shape(back) && Devs(back) == Devs(lines[..|lines| - 1])
    ensures Shape(back + Kept(lines[|lines| - 1])) && Devs(back + Kept(lines[|lines| - 1])) == Devs(lines)
  {
    hide Formed, KeyAt, DevOf, Kept, Distinct, Reread, Shape, Devs;
    var pre, l := lines[..|lines| - 1], lines[|lines| - 1];
    assert Formed(l) by { LastFormed(lines); }
    KeptLine(l);
    var r := Kept(l)[0];
    ShapePrefix(lines);
    assert lines == pre + [l];
    DevsAppend(pre, l);
    forall i | 0 <= i < |back| && Settable(back[i].tag) ensures back[i].text.None? || KeyAt(r) != Some(back[i].tag) {
      if back[i].text.Some? { NotAfter(lines, back, i); }
    }
    ShapeAdd(back, r);
    DevsAppend(back, r);
    if |Kept(l)| == 2 {
      EmptyFormed();
      ShapeAdd(back + [r], EMPTY);
      DevsAppend(back + [r], EMPTY);
      assert Kept(l) == [r] + [EMPTY];
      assert back + Kept(l) == back + [r] + [EMPTY];
    } else {
      assert Kept(l) == [r];
    }
  }

  lemma LastFormed(lines: seq<Line>)
    requires Shape(lines) && lines != []
    ensures Formed(lines[|lines| - 1]) && forall i :: 0 <= i < |lines| - 1 ==> Formed(lines[i])
  {
  }

  // an option that is held has no further line of its name
  lemma NotAfter(lines: seq<Line>, back: seq<Line>, i: nat)
    requires Shape(lines) && lines != [] && back == Reread(lines[..|lines| - 1])
    requires i < |back| && Settable(back[i].tag) && Tagged(back[i], back[i].tag)
    ensures KeyAt(lines[|lines| - 1]) != Some(back[i].tag)
  {
    hide Formed, KeyAt, DevOf, Kept, Reread, Devs;
    var pre := lines[..|lines| - 1];
    RereadHolds(pre, back[i].tag);
    var j :| 0 <= j < |pre| && Tagged(pre[j], back[i].tag);
    assert lines[j] == pre[j];
  }

  lemma RereadExclusive(lines: seq<Line>)
    requires Shape(lines) && Exclusive(lines)
    ensures Exclusive(Reread(lines))
  {
    hide Shape, Slot, Settable, Reread;
    RereadShape(lines);
    forall k, j | Clash(k, j) && Settable(j) ensures Slot(Reread(lines), k) == None || Slot(Reread(lines), j) == None {
      ClashSettable(k, j);
      if Slot(lines, k) == None { StillNone(lines, k); } else { StillNone(lines, j); }
    }
  }

  lemma StillNone(lines: seq<Line>, k: Key)
    requires Shape(lines) && Settable(k) && Slot(lines, k) == None
    ensures Slot(Reread(lines), k) == None
  {
    hide Formed, Slot, Reread, Order, Devs;
    if Slot(Reread(lines), k).Some? {
      var i := SlotHolder(Reread(lines), k);
      RereadHolds(lines, k);
      var j :| 0 <= j < |lines| && Tagged(lines[j], k);
      SlotIs(lines, k, j);
    }
  }
}
