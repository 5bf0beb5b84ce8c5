/**
 The table of remembered lines (cfglines) and its three editing operations.

 write_cfg never prints a fresh file: it edits the lines read from the user's
 file, or left by an earlier save. An option is found by its tag when it is set,
 but by the name in its text when it is removed.
 */
module CfgTable {
  import opened Basics
  import opened CText
  import opened CfgKeys

  // text is None once the line was removed; own marks lines the daemon added itself.
  datatype Line = Line(text: Option<string>, tag: Key, own: bool)

  const BLANK := Line(None, Repeat, false)

  /** One editing step of write_cfg. */
  datatype Op =
    | Put(key: Key, val: string)      // add_cfgopt
    | Del(key: Key, ownOnly: bool)    // rm_cfgopt by name, with RMCFG_ALL or RMCFG_OWN
    | PutDev(vid: int, pid: int)      // add_cfgopt_devid

  const LINE_MAX := 511  // vsnprintf into a 512-byte buffer

  function LineOf(k: Key, val: string): string { KeyText(k) + " = " + val }

  function Clip(s: string): string { if |s| > LINE_MAX then s[..LINE_MAX] else s }

  /** The name rm_cfgopt compares: the text before '=', provided white space precedes the '='. */
  function RmName(text: string): Option<string> {
    var b := if |text| > 255 then text[..255] else text;
    var p := b[Span(b, Space)..];
    match IndexOf(p, '=')
    case None => None
    case Some(e) => if e == 0 || !IsSpace(p[e - 1]) then Some(p) else Some(TrimEnd(p[..e]))
  }

  function TrimEnd(s: string): (t: string)
    ensures t <= s
  {
    if s != "" && IsSpace(s[|s| - 1]) then TrimEnd(s[..|s| - 1]) else s
  }

  // ---- what each step looks for ---------------------------------------------

  predicate Tagged(l: Line, k: Key) { l.text.Some? && l.tag == k }

  predicate Named(l: Line, name: string) {
    l.text.Some? && l.text.value != "" && RmName(l.text.value) == Some(name)
  }

  // the ids a line tagged DevId holds, after its first '='
  function DevOf(l: Line): Option<(nat, nat)> {
    if !Tagged(l, DevId) then None
    else
      match IndexOf(l.text.value, '=')
      case None => None
      case Some(e) => ScanDevId(l.text.value[e + 1..])
  }

  predicate Hit(op: Op, l: Line) {
    match op
    case Put(k, _) => Tagged(l, k)
    case Del(k, _) => Named(l, KeyText(k))
    case PutDev(v, p) => DevOf(l) == Some((ToUint(v), ToUint(p)))
  }

  // what becomes of the line found
  function Edit(op: Op, l: Line): Line {
    match op
    case Put(k, val) => Line(Some(Clip(LineOf(k, val))), k, l.own)
    case Del(_, ownOnly) => if !ownOnly || l.own then l.(text := None) else l
    case PutDev(v, p) => Line(Some(LineOf(DevId, DevIdText(v, p))), DevId, l.own)
  }

  // the lines appended when none is found
  function Append(op: Op): seq<Line> {
    match op
    case Put(k, val) => [Line(Some(Clip(LineOf(k, val))), k, true)]
    case Del(_, _) => []
    case PutDev(v, p) => [BLANK, Line(Some(LineOf(DevId, DevIdText(v, p))), DevId, false)]
  }

  /** The first line, from i on, that the step looks for. */
  function FindFrom(op: Op, lines: seq<Line>, i: nat): (r: Option<nat>)
    requires i <= |lines|
    decreases |lines| - i
  {
    if i == |lines| then None
    else if Hit(op, lines[i]) then Some(i)
    else FindFrom(op, lines, i + 1)
  }

  function Find(op: Op, lines: seq<Line>): (r: Option<nat>) { FindFrom(op, lines, 0) }

  lemma {:induction false} FindFromFirst(op: Op, lines: seq<Line>, i: nat)
    requires i <= |lines|
    ensures var r := FindFrom(op, lines, i);
            match r
            case Some(j) => i <= j < |lines| && Hit(op, lines[j]) && forall h :: i <= h < j ==> !Hit(op, lines[h])
            case None => forall h :: i <= h < |lines| ==> !Hit(op, lines[h])
    decreases |lines| - i
  {
    hide Hit;
    if i < |lines| && !Hit(op, lines[i]) { FindFromFirst(op, lines, i + 1); }
  }

  /** Find gives the first line hit, or None when no line is hit. */
  lemma FindIsFirst(op: Op, lines: seq<Line>)
    ensures match Find(op, lines)
            case Some(j) => j < |lines| && Hit(op, lines[j]) && forall h :: 0 <= h < j ==> !Hit(op, lines[h])
            case None => forall h :: 0 <= h < |lines| ==> !Hit(op, lines[h])
  {
    hide Hit;
    FindFromFirst(op, lines, 0);
  }

  function Apply(op: Op, lines: seq<Line>): seq<Line> {
    match Find(op, lines)
    case None => lines + Append(op)
    case Some(i) => FindIsFirst(op, lines); lines[i := Edit(op, lines[i])]
  }

  function Run(lines: seq<Line>, ops: seq<Op>): seq<Line> {
    if ops == [] then lines else Apply(ops[|ops| - 1], Run(lines, ops[..|ops| - 1]))
  }

  lemma {:induction false} RunConcat(lines: seq<Line>, a: seq<Op>, b: seq<Op>)
    ensures Run(lines, a + b) == Run(Run(lines, a), b)
  {
    if b == [] {
      assert a + b == a;
    } else {
      assert (a + b)[..|a + b| - 1] == a + b[..|b| - 1];
      RunConcat(lines, a, b[..|b| - 1]);
    }
  }

  // ---- tables built by saving -------------------------------------------------

  /** A removed line, or one whose tag and name agree, as saving leaves them. */
  predicate TidyLine(l: Line) {
    l.text.Some? ==>
      && Saved(l.tag)
      && Named(l, KeyText(l.tag))
      && if l.tag == DevId then
           DevOf(l).Some? && l.text.value == LineOf(DevId, DevIdText(DevOf(l).value.0, DevOf(l).value.1))
         else
           l.own
  }

  ghost predicate Tidy(lines: seq<Line>) {
    && (forall i :: 0 <= i < |lines| ==> TidyLine(lines[i]))
    && (forall i, j :: 0 <= i < j < |lines| && lines[i].text.Some? && lines[j].text.Some?
                       && lines[i].tag == lines[j].tag ==>
          lines[i].tag == DevId && DevOf(lines[i]) != DevOf(lines[j]))
  }

  /** The text of the line that holds option k. */
  function Lookup(lines: seq<Line>, k: Key): Option<string> {
    match Find(Put(k, ""), lines)
    case None => None
    case Some(i) => FindIsFirst(Put(k, ""), lines); lines[i].text
  }

  /** The device ids in the table, in order. */
  function Devs(lines: seq<Line>): (ds: seq<(nat, nat)>) {
    if lines == [] then []
    else
      var ds := Devs(lines[..|lines| - 1]);
      match DevOf(lines[|lines| - 1])
      case None => ds
      case Some(d) => ds + [d]
  }

  predicate Distinct(ds: seq<(nat, nat)>) { forall i, j :: 0 <= i < j < |ds| ==> ds[i] != ds[j] }

  // ---- names in printed lines ---------------------------------------------------

  lemma {:induction false} TrimEndOf(s: string)
    requires s != "" && !IsSpace(s[|s| - 1])
    ensures TrimEnd(s + " ") == s
  {
    assert (s + " ")[..|s|] == s;
  }

  lemma RmNameIs(t: string, name: string)
    requires Name(name) && name + " =" <= t
    ensures RmName(t) == Some(name)
  {
    hide Span, TrimEnd;
    var b := if |t| > 255 then t[..255] else t;
    var n := |name|;
    assert forall i :: 0 <= i < n ==> b[i] == name[i];
    assert b[n] == ' ' && b[n + 1] == '=' by {
      assert (name + " =")[n] == ' ' && (name + " =")[n + 1] == '=';
    }
    SpanIs(b, Space, 0);
    assert b[0..] == b;
    SpanIs(b, Other('='), n + 1);
    assert b[..n + 1] == name + " ";
    TrimEndOf(name);
  }

  lemma NamedLine(k: Key, val: string)
    requires Saved(k)
    ensures var t := Clip(LineOf(k, val));
            t != "" && RmName(t) == Some(KeyText(k)) && KeyText(k) + " =" <= t
  {
    KeyTextIsName(k);
    var t := Clip(LineOf(k, val));
    assert KeyText(k) + " =" <= t by {
      assert LineOf(k, val) == KeyText(k) + " =" + (" " + val);
    }
    RmNameIs(t, KeyText(k));
  }

  lemma AfterEquals(name: string, body: string)
    requires Name(name)
    ensures var t := name + " = " + body;
            IndexOf(t, '=') == Some(|name| + 1) && t[|name| + 2..] == " " + body
  {
    SpanIs(name + " = " + body, Other('='), |name| + 1);
  }

  lemma DevLineOf(v: int, p: int, own: bool)
    ensures DevOf(Line(Some(LineOf(DevId, DevIdText(v, p))), DevId, own)) == Some((ToUint(v), ToUint(p)))
  {
    hide ScanDevId, DevIdText, IndexOf;
    KeyTextIsName(DevId);
    AfterEquals(KeyText(DevId), DevIdText(v, p));
    ScanOfDevId(v, p, " ");
  }

  lemma DevIdTextOfUint(v: int, p: int)
    ensures DevIdText(ToUint(v), ToUint(p)) == DevIdText(v, p)
  {
  }

  lemma DevLine(v: int, p: int, own: bool)
    ensures var l := Line(Some(LineOf(DevId, DevIdText(v, p))), DevId, own);
            TidyLine(l) && DevOf(l) == Some((ToUint(v), ToUint(p)))
  {
    hide DevOf, DevIdText, RmName;
    var t := LineOf(DevId, DevIdText(v, p));
    DevLineOf(v, p, own);
    DevIdTextOfUint(v, p);
    KeyTextIsName(DevId);
    RmNameIs(t, KeyText(DevId)) by { assert t == KeyText(DevId) + " =" + (" " + DevIdText(v, p)); }
  }

  // ---- what one step does to a tidy table -------------------------------------------

  // Option k is held by line i.
  lemma LookupIs(lines: seq<Line>, k: Key, i: nat)
    requires Tidy(lines) && k != DevId && i < |lines| && Tagged(lines[i], k)
    ensures Lookup(lines, k) == lines[i].text
  {
    hide TidyLine, DevOf;
    FindIsFirst(Put(k, ""), lines);
  }

  lemma LookupNone(lines: seq<Line>, k: Key)
    requires forall i :: 0 <= i < |lines| ==> !Tagged(lines[i], k)
    ensures Lookup(lines, k) == None
  {
    FindIsFirst(Put(k, ""), lines);
  }

  lemma LookupHolder(lines: seq<Line>, k: Key) returns (i: nat)
    requires Lookup(lines, k).Some?
    ensures i < |lines| && Tagged(lines[i], k) && lines[i].text == Lookup(lines, k)
  {
    FindIsFirst(Put(k, ""), lines);
    i := Find(Put(k, ""), lines).value;
  }

  // The two tables hold the same text for option k.
  lemma SameLookup(lines: seq<Line>, after: seq<Line>, k: Key)
    requires Tidy(lines) && Tidy(after) && k != DevId && |lines| <= |after|
    requires forall i :: 0 <= i < |lines| && Tagged(lines[i], k) ==> after[i] == lines[i]
    requires forall i :: 0 <= i < |after| && Tagged(after[i], k) ==> i < |lines| && after[i] == lines[i]
    ensures Lookup(after, k) == Lookup(lines, k)
  {
    if Lookup(lines, k).Some? {
      var i := LookupHolder(lines, k);
      LookupIs(after, k, i);
    } else {
      forall i | 0 <= i < |after| ensures !Tagged(after[i], k) {
        if Tagged(after[i], k) { LookupIs(lines, k, i); }
      }
      LookupNone(after, k);
    }
  }

  lemma {:induction false} DevsUpdate(lines: seq<Line>, i: nat, l: Line)
    requires i < |lines| && DevOf(l) == DevOf(lines[i])
    ensures Devs(lines[i := l]) == Devs(lines)
  {
    hide DevOf;
    var n := |lines| - 1;
    if i < n {
      assert lines[i := l][..n] == lines[..n][i := l];
      DevsUpdate(lines[..n], i, l);
    } else {
      assert lines[i := l][..n] == lines[..n];
    }
  }

  lemma DevsAppend(lines: seq<Line>, l: Line)
    ensures Devs(lines + [l]) == if DevOf(l).Some? then Devs(lines) + [DevOf(l).value] else Devs(lines)
  {
    assert (lines + [l])[..|lines|] == lines;
  }

  lemma {:induction false} DevsMember(lines: seq<Line>, d: (nat, nat))
    ensures d in Devs(lines) <==> exists i :: 0 <= i < |lines| && DevOf(lines[i]) == Some(d)
  {
    hide DevOf;
    if lines != [] {
      var n := |lines| - 1;
      DevsMember(lines[..n], d);
      assert forall i :: 0 <= i < n ==> lines[..n][i] == lines[i];
      if exists i :: 0 <= i < |lines| && DevOf(lines[i]) == Some(d) {
        var i :| 0 <= i < |lines| && DevOf(lines[i]) == Some(d);
        if i < n { assert DevOf(lines[..n][i]) == Some(d); }
      }
    }
  }

  // Does the step decide the text of option k?
  predicate Touches(op: Op, k: Key) { !op.PutDev? && op.key == k }

  // The text it then leaves.
  function Result(op: Op): Option<string> {
    if op.Put? then Some(Clip(LineOf(op.key, op.val))) else None
  }

  predicate Proper(op: Op) { op.PutDev? || (Saved(op.key) && op.key != DevId) }

  function AddDev(ds: seq<(nat, nat)>, d: (nat, nat)): seq<(nat, nat)> { if d in ds then ds else ds + [d] }

  function DevsAfter(op: Op, ds: seq<(nat, nat)>): seq<(nat, nat)> {
    if op.PutDev? then AddDev(ds, (ToUint(op.vid), ToUint(op.pid))) else ds
  }

  // In a tidy table a name identifies its tag.
  lemma NameIsTag(l: Line, k: Key)
    requires TidyLine(l) && l.text.Some? && Saved(k)
    ensures Named(l, KeyText(k)) <==> l.tag == k
  {
    hide DevOf, KeyText, RmName;
    if Named(l, KeyText(k)) { KeyTextInjective(l.tag, k); }
  }

  lemma TidyReplace(lines: seq<Line>, j: nat, l: Line)
    requires Tidy(lines) && TidyLine(l) && j < |lines| && lines[j].text.Some?
    requires l.text.Some? ==> l.tag == lines[j].tag && DevOf(l) == DevOf(lines[j])
    ensures Tidy(lines[j := l])
  {
    hide TidyLine, DevOf;
  }

  lemma TidyAppend(lines: seq<Line>, l: Line)
    requires Tidy(lines) && TidyLine(l)
    requires forall i :: 0 <= i < |lines| && l.text.Some? && Tagged(lines[i], l.tag) ==>
               l.tag == DevId && DevOf(lines[i]) != DevOf(l)
    ensures Tidy(lines + [l])
  {
    hide TidyLine, DevOf;
  }

  lemma TidyPutLine(k: Key, val: string)
    requires Saved(k) && k != DevId
    ensures TidyLine(Line(Some(Clip(LineOf(k, val))), k, true))
  {
    hide RmName, KeyText, LineOf, Clip;
    NamedLine(k, val);
  }

  lemma OwnsPut(l: Line)
    requires TidyLine(l) && l.text.Some? && l.tag != DevId
    ensures l.own && DevOf(l) == None
  {
    hide Named, KeyText, ScanDevId;
  }

  lemma PutTidy(op: Op, lines: seq<Line>)
    requires Tidy(lines) && Proper(op) && op.Put?
    ensures Tidy(Apply(op, lines))
    ensures Lookup(Apply(op, lines), op.key) == Result(op)
    ensures Devs(Apply(op, lines)) == Devs(lines)
  {
    hide TidyLine, LineOf, Clip, Lookup;
    TidyPutLine(op.key, op.val);
    FindIsFirst(op, lines);
    var l := Line(Some(Clip(LineOf(op.key, op.val))), op.key, true);
    match Find(op, lines)
    case Some(j) =>
      OwnsPut(lines[j]);
      OwnsPut(l);
      TidyReplace(lines, j, l);
      DevsUpdate(lines, j, l);
      LookupIs(lines[j := l], op.key, j);
    case None =>
      TidyAppend(lines, l);
      DevsAppend(lines, l);
      LookupIs(lines + [l], op.key, |lines|);
  }

  lemma DelTidy(op: Op, lines: seq<Line>)
    requires Tidy(lines) && Proper(op) && op.Del?
    ensures Tidy(Apply(op, lines))
    ensures Lookup(Apply(op, lines), op.key) == None
    ensures Devs(Apply(op, lines)) == Devs(lines)
  {
    hide TidyLine, Named, DevOf, Lookup, KeyText;
    FindIsFirst(op, lines);
    forall i | 0 <= i < |lines| ensures Hit(op, lines[i]) <==> Tagged(lines[i], op.key) {
      if lines[i].text.Some? { NameIsTag(lines[i], op.key); } else { NoText(lines[i], KeyText(op.key)); }
    }
    match Find(op, lines)
    case Some(j) =>
      var l := lines[j].(text := None);
      OwnsPut(lines[j]);
      NoText(l, "");
      TidyReplace(lines, j, l);
      DevsUpdate(lines, j, l);
      LookupNone(lines[j := l], op.key);
    case None =>
      LookupNone(lines, op.key);
      assert lines + [] == lines;
  }

  // a removed line is neither named nor a device line
  lemma NoText(l: Line, name: string)
    requires l.text.None?
    ensures !Named(l, name) && DevOf(l) == None && TidyLine(l)
  {
  }

  lemma DevTagged(l: Line)
    ensures DevOf(l).Some? ==> Tagged(l, DevId)
  {
    hide ScanDevId;
  }

  lemma AppendDev(lines: seq<Line>, l: Line)
    requires Tidy(lines) && TidyLine(l) && Tagged(l, DevId) && DevOf(l).Some?
    requires forall i :: 0 <= i < |lines| ==> DevOf(lines[i]) != DevOf(l)
    ensures Tidy(lines + [BLANK, l])
    ensures Devs(lines + [BLANK, l]) == Devs(lines) + [DevOf(l).value]
  {
    hide TidyLine, DevOf;
    NoText(BLANK, "");
    TidyAppend(lines, BLANK);
    DevsAppend(lines, BLANK);
    TidyAppend(lines + [BLANK], l);
    DevsAppend(lines + [BLANK], l);
    assert lines + [BLANK, l] == lines + [BLANK] + [l];
  }

  lemma PutDevTidy(op: Op, lines: seq<Line>)
    requires Tidy(lines) && op.PutDev?
    ensures Tidy(Apply(op, lines))
    ensures Devs(Apply(op, lines)) == DevsAfter(op, Devs(lines))
  {
    hide TidyLine, LineOf, DevIdText, ToUint, DevOf;
    var d := (ToUint(op.vid), ToUint(op.pid));
    FindIsFirst(op, lines);
    DevsMember(lines, d);
    match Find(op, lines)
    case Some(j) =>
      var e := Edit(op, lines[j]);
      DevTagged(lines[j]);
      DevLine(op.vid, op.pid, e.own);
      TidyReplace(lines, j, e);
      DevsUpdate(lines, j, e);
    case None =>
      DevLine(op.vid, op.pid, false);
      AppendDev(lines, Append(op)[1]);
  }

  // Options a step does not touch keep their text.
  lemma Untouched(op: Op, lines: seq<Line>, k: Key)
    requires Tidy(lines) && Proper(op) && Saved(k) && k != DevId && !Touches(op, k)
    requires Tidy(Apply(op, lines))
    ensures Lookup(Apply(op, lines), k) == Lookup(lines, k)
  {
    hide RmName, KeyText, LineOf, Clip, ScanDevId, DevIdText, Lookup;
    FindIsFirst(op, lines);
    if op.Del? && Find(op, lines).Some? { NameIsTag(lines[Find(op, lines).value], op.key); }
    SameLookup(lines, Apply(op, lines), k);
  }

  /** One step on a tidy table: it stays tidy, one option changes, ids are only added. */
  lemma ApplyTidy(op: Op, lines: seq<Line>)
    requires Tidy(lines) && Proper(op)
    ensures Tidy(Apply(op, lines))
    ensures forall k :: Saved(k) && k != DevId ==>
              Lookup(Apply(op, lines), k) == if Touches(op, k) then Result(op) else Lookup(lines, k)
    ensures Devs(Apply(op, lines)) == DevsAfter(op, Devs(lines))
  {
    hide Tidy, Apply, Lookup, Devs, KeyText;
    match op {
      case Put(_, _) => PutTidy(op, lines);
      case Del(_, _) => DelTidy(op, lines);
      case PutDev(_, _) => PutDevTidy(op, lines);
    }
    forall k | Saved(k) && k != DevId && !Touches(op, k)
      ensures Lookup(Apply(op, lines), k) == Lookup(lines, k)
    {
      Untouched(op, lines, k);
    }
  }
}
