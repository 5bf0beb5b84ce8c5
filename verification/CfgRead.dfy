/**
 read_cfg: a file is cut into lines, each line into an option and a value, and
 the value is stored in the configuration.
 */
module CfgRead {
  import opened Basics
  import opened CText
  import opened Config
  import opened CfgKeys
  import opened CfgTable

  // The configuration read so far and the number of device ids scanned.
  datatype Reader = Reader(cfg: Cfg<real>, numDev: nat) {
    predicate Valid() { cfg.Shaped() }

    // more ids were scanned than the list has places: the C code wrote past its end
    predicate Overflowed() { numDev > MAX_CUSTOM }
  }

  // ---- values ------------------------------------------------------------------

  // the position of s among the words, as a truth value
  function BoolWord(s: string): Option<int> {
    if s == "false" || s == "no" || s == "off" then Some(0)
    else if s == "true" || s == "yes" || s == "on" then Some(1)
    else None
  }

  predicate IsIntVal(s: string) { ScanInt(s).Some? }

  // fval: 0 for a value that is not a number
  function RealVal(s: string): real { if ScanReal(s).Some? then ScanReal(s).value else 0.0 }

  predicate IsBoolVal(s: string) { ScanInt(s).None? && ScanReal(s).None? && BoolWord(s).Some? }

  // ival: the integer, or the truth value of a bool word, or 0
  function IntVal(s: string): int {
    if ScanInt(s).Some? then ScanInt(s).value
    else if IsBoolVal(s) then BoolWord(s).value
    else 0
  }

  function ParseBnact(s: string): Option<int> {
    if s == "none" then Some(BNACT_NONE)
    else if s == "sensitivity-up" then Some(BNACT_SENS_INC)
    else if s == "sensitivity-down" then Some(BNACT_SENS_DEC)
    else if s == "sensitivity-reset" then Some(BNACT_SENS_RESET)
    else if s == "disable-rotation" then Some(BNACT_DISABLE_ROTATION)
    else if s == "disable-translation" then Some(BNACT_DISABLE_TRANSLATION)
    else if s == "dominant-axis" then Some(BNACT_DOMINANT_AXIS)
    else None
  }

  // ---- one option ----------------------------------------------------------------

  /** The tag the line gets, and the configuration after storing the value. */
  datatype Parsed = Parsed(tag: Key, st: Reader)

  function Untagged(st: Reader): Parsed { Parsed(Repeat, st) }

  function Store(tag: Key, st: Reader, c: Cfg<real>): Parsed { Parsed(tag, st.(cfg := c)) }

  // A value of the wrong kind is reported, and stored all the same: the `continue`
  // of the source's EXPECT macro only leaves the macro's own do-while loop.

  function StoreFloat(k: Key, val: string, st: Reader): (r: Parsed)
    requires st.Valid() && (k.SensT? || k.SensR? ==> 0 <= k.a < 3)
    ensures r.st.Valid()
  {
    var x := RealVal(val);
    var c := st.cfg;
    match k
    case Sens => Store(k, st, c.(sensitivity := x))
    case SensTrans => Store(k, st, c.(sensTrans := [x, x, x]))
    case SensT(a) => Store(k, st, c.(sensTrans := c.sensTrans[a := x]))
    case SensRot => Store(k, st, c.(sensRot := [x, x, x]))
    case SensR(a) => Store(k, st, c.(sensRot := c.sensRot[a := x]))
    case _ => Parsed(k, st)
  }

  function StoreDead(k: Key, val: string, st: Reader): (r: Parsed)
    requires st.Valid() && (k.DeadAxis? ==> 0 <= k.a < 6)
    ensures r.st.Valid()
  {
    var c := st.cfg;
    var v := IntVal(val);
    match k
    case DeadZone => Store(k, st, c.(dead := Fill(MAX_AXES, v)))
    case DeadZoneN(i) => if i < 0 || i >= MAX_AXES then Untagged(st) else Store(k, st, c.(dead := c.dead[i := v]))
    case DeadAxis(a) => Store(k, st, c.(dead := c.dead[a := v]))
    case _ => Parsed(k, st)
  }

  // the axes named in an invert option are switched on
  function StoreInvert(k: Key, val: string, st: Reader): (r: Parsed)
    requires st.Valid()
    ensures r.st.Valid()
  {
    var v := st.cfg.invert;
    var b := if k.InvRot? then 3 else 0;
    var w := v[b := v[b] || 'x' in val][b + 1 := v[b + 1] || 'y' in val][b + 2 := v[b + 2] || 'z' in val];
    Store(k, st, st.cfg.(invert := w))
  }

  predicate ButtonIdx(i: int) { 0 <= i < MAX_BUTTONS }

  function StoreMap(k: Key, val: string, st: Reader): (r: Parsed)
    requires st.Valid()
    ensures r.st.Valid()
  {
    var c := st.cfg;
    var v := IntVal(val);
    match k
    case AxisMap(i) =>
      if i < 0 || i >= MAX_AXES || v < 0 || v >= 6 then Untagged(st)
      else Store(k, st, c.(mapAxis := c.mapAxis[i := v]))
    case BnMap(i) =>
      if !ButtonIdx(i) || !ButtonIdx(v) then Untagged(st)
      else Store(k, st, c.(mapButton := c.mapButton[i := v]))
    case BnHold(i) =>
      if !ButtonIdx(i) || !ButtonIdx(v) then Untagged(st)
      else Store(k, st, c.(mapHold := c.mapHold[i := v]))
    case BnAct(i) =>
      if !ButtonIdx(i) then Untagged(st)
      else
        var act := ParseBnact(val);
        Store(k, st, c.(bnact := c.bnact[i := if act.Some? then act.value else BNACT_NONE]))
    case KbMap(i) =>
      if !ButtonIdx(i) then Untagged(st) else Store(k, st, c.(kbmapStr := c.kbmapStr[i := val]))
    case _ => Parsed(k, st)
  }

  function StoreFlag(k: Key, val: string, st: Reader): (r: Parsed)
    requires st.Valid()
    ensures r.st.Valid()
  {
    var c := st.cfg;
    var v := IntVal(val);
    var ok := IsIntVal(val) || IsBoolVal(val);
    match k
    case Repeat => Store(k, st, c.(repeat := v))
    case Hold => if v < 0 then Untagged(st) else Store(k, st, c.(holdTimeout := v))
    case SwapYZ => if ok then Store(k, st, c.(swapyz := v)) else Parsed(k, st)
    case Led =>
      if ok then Store(k, st, c.(led := v))
      else if val == "auto" then Store(k, st, c.(led := LED_AUTO))
      else Parsed(k, st)
    case Grab => if ok then Store(k, st, c.(grab := v)) else Parsed(k, st)
    case UseX11 => if ok then Store(k, st, c.(kbemuX11 := v)) else Parsed(k, st)
    case Serial => Store(k, st, c.(serial := val))
    case SockPath => Store(k, st, c.(sockpath := val))
    case DevId =>
      (match ScanDevId(val)
       case None => Parsed(k, st)
       case Some((v, p)) =>
         // the ids are counted and stored without a bound; what lies beyond the list is not modelled
         var d := if st.numDev < MAX_CUSTOM then c.(devid := c.devid[st.numDev := (ToInt(v), ToInt(p))]) else c;
         Parsed(k, Reader(d, st.numDev + 1)))
    case _ => Parsed(k, st)
  }

  function ParseOption(k: Key, val: string, st: Reader): (r: Parsed)
    requires st.Valid() && (k.SensT? || k.SensR? ==> 0 <= k.a < 3) && (k.DeadAxis? ==> 0 <= k.a < 6)
    ensures r.st.Valid()
  {
    match k
    case Sens => StoreFloat(k, val, st)
    case SensTrans => StoreFloat(k, val, st)
    case SensT(_) => StoreFloat(k, val, st)
    case SensRot => StoreFloat(k, val, st)
    case SensR(_) => StoreFloat(k, val, st)
    case DeadZone => StoreDead(k, val, st)
    case DeadZoneN(_) => StoreDead(k, val, st)
    case DeadAxis(_) => StoreDead(k, val, st)
    case InvRot => StoreInvert(k, val, st)
    case InvTrans => StoreInvert(k, val, st)
    case AxisMap(_) => StoreMap(k, val, st)
    case BnMap(_) => StoreMap(k, val, st)
    case BnHold(_) => StoreMap(k, val, st)
    case BnAct(_) => StoreMap(k, val, st)
    case KbMap(_) => StoreMap(k, val, st)
    case _ => StoreFlag(k, val, st)
  }

  // ---- one line ---------------------------------------------------------------------

  // the option name and value of a line; None for blank, comment and incomplete lines
  function Tokens(line: string): Option<(string, string)> {
    var n := Span(line, Indent);
    if n == |line| || line[n] == '#' then None
    else
      match Strtok(line[n..])
      case None => None
      case Some((key, rest)) =>
        match Strtok(rest)
        case None => None
        case Some((val, _)) => Some((key, val))
  }

  lemma ParseKeyAxes(s: string)
    ensures match ParseKey(s)
            case Some(k) => (k.SensT? || k.SensR? ==> 0 <= k.a < 3) && (k.DeadAxis? ==> 0 <= k.a < 6)
            case None => true
  {
    hide ScanIndex;
  }

  function ParseLine(line: string, st: Reader): (r: Parsed)
    requires st.Valid()
    ensures r.st.Valid()
  {
    match Tokens(line)
    case None => Untagged(st)
    case Some((key, val)) =>
      ParseKeyAxes(key);
      match ParseKey(key)
      case None => Untagged(st)
      case Some(k) => ParseOption(k, val, st)
  }

  // ---- the file -----------------------------------------------------------------------

  // fgets into a 512-byte buffer: up to and including a newline, at most 511 characters
  function FgetsLength(text: string): (n: nat)
    ensures n <= |text| && (text != "" ==> n > 0)
  {
    var e := Span(text, Other('\n'));
    var n := if e < |text| then e + 1 else e;
    if n > LINE_MAX then LINE_MAX else n
  }

  // the line ends at the first CR, or else at the newline
  function Chop(buf: string): string {
    match IndexOf(buf, '\r')
    case Some(i) => buf[..i]
    case None =>
      match IndexOf(buf, '\n')
      case Some(i) => buf[..i]
      case None => buf
  }

  /** The reader after the rest of the file. */
  function ReadFrom(text: string, st: Reader): (r: Reader)
    requires st.Valid()
    ensures r.Valid()
    decreases |text|
  {
    if text == "" then st
    else
      var n := FgetsLength(text);
      ReadFrom(text[n..], ParseLine(Chop(text[..n]), st).st)
  }

  /** The lines remembered while reading, none of them the daemon's own. */
  function RememberFrom(text: string, st: Reader): seq<Line>
    requires st.Valid()
    decreases |text|
  {
    if text == "" then []
    else
      var n := FgetsLength(text);
      var line := Chop(text[..n]);
      var p := ParseLine(line, st);
      [Line(Some(line), p.tag, false)] + RememberFrom(text[n..], p.st)
  }

  function Start(): (st: Reader)
    ensures st.Valid()
  {
    Reader(DefaultCfg(1.0), 0)
  }

  function Read(text: string): (c: Cfg<real>)
    ensures c.Shaped()
  {
    ReadFrom(text, Start()).cfg
  }

  /** read_cfg: the configuration in the file, and the table of its lines. */
  method ReadCfg(text: string) returns (c: Cfg<real>, lines: seq<Line>)
    ensures c == Read(text)
    ensures lines == RememberFrom(text, Start())
  {
    hide ParseLine, Chop, FgetsLength;
    var st := Start();
    var pos := 0;
    lines := [];
    assert text[0..] == text;
    while pos < |text|
      invariant 0 <= pos <= |text| && st.Valid()
      invariant ReadFrom(text[pos..], st) == ReadFrom(text, Start())
      invariant lines + RememberFrom(text[pos..], st) == RememberFrom(text, Start())
    {
      var rest := text[pos..];
      var n := FgetsLength(rest);
      var line := Chop(rest[..n]);
      var p := ParseLine(line, st);
      assert rest[n..] == text[pos + n..];
      assert lines + RememberFrom(rest, st) == lines + [Line(Some(line), p.tag, false)] + RememberFrom(rest[n..], p.st);
      lines := lines + [Line(Some(line), p.tag, false)];
      st := p.st;
      pos := pos + n;
    }
    c := st.cfg;
  }
}
