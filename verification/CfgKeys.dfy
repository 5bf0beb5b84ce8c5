/**
 The option names of the configuration file, and how a line is taken apart
 into an option name and a value.
 */
module CfgKeys {
  import opened Basics
  import opened CText
  import opened Config

  /**
   A line's tag: the CFG_* option together with its index. `Repeat` is the zero
   value, so a line that was never tagged carries it too.
   */
  datatype Key =
    | Repeat | Hold
    | DeadZone | DeadZoneN(i: int) | DeadAxis(a: int)
    | Sens | SensTrans | SensT(a: int) | SensRot | SensR(a: int)
    | InvRot | InvTrans | SwapYZ
    | AxisMap(i: int) | BnMap(i: int) | BnHold(i: int) | BnAct(i: int) | KbMap(i: int)
    | Led | Grab | Serial | DevId | SockPath | UseX11

  /** The option name as it is written in the file. */
  function KeyText(k: Key): (s: string) {
    match k
    case Repeat => "repeat-interval"
    case Hold => "hold-timeout"
    case DeadZone => "dead-zone"
    case DeadZoneN(i) => "dead-zone" + Dec(i)
    case DeadAxis(a) =>
      if a == 0 then "dead-zone-translation-x" else if a == 1 then "dead-zone-translation-y"
      else if a == 2 then "dead-zone-translation-z" else if a == 3 then "dead-zone-rotation-x"
      else if a == 4 then "dead-zone-rotation-y" else "dead-zone-rotation-z"
    case Sens => "sensitivity"
    case SensTrans => "sensitivity-translation"
    case SensT(a) =>
      if a == 0 then "sensitivity-translation-x" else if a == 1 then "sensitivity-translation-y"
      else "sensitivity-translation-z"
    case SensRot => "sensitivity-rotation"
    case SensR(a) =>
      if a == 0 then "sensitivity-rotation-x" else if a == 1 then "sensitivity-rotation-y" else "sensitivity-rotation-z"
    case InvRot => "invert-rot"
    case InvTrans => "invert-trans"
    case SwapYZ => "swap-yz"
    case AxisMap(i) => "axismap" + Dec(i)
    case BnMap(i) => "bnmap" + Dec(i)
    case BnHold(i) => "bnhold" + Dec(i)
    case BnAct(i) => "bnact" + Dec(i)
    case KbMap(i) => "kbmap" + Dec(i)
    case Led => "led"
    case Grab => "grab"
    case Serial => "serial"
    case DevId => "device-id"
    case SockPath => "socket"
    case UseX11 => "kbmap_use_x11"
  }

  // sscanf(key, prefix "%d", &index) == 1
  function ScanIndex(s: string, prefix: string): Option<int> {
    if prefix <= s then ScanInt(s[|prefix|..]) else None
  }

  // The name tests of read_cfg, in the order they are made, one family at a time.

  function ParseDead(s: string): Option<Key> {
    if s == "dead-zone" then Some(DeadZone)
    else if ScanIndex(s, "dead-zone").Some? then Some(DeadZoneN(ScanIndex(s, "dead-zone").value))
    else if s == "dead-zone-translation-x" then Some(DeadAxis(0))
    else if s == "dead-zone-translation-y" then Some(DeadAxis(1))
    else if s == "dead-zone-translation-z" then Some(DeadAxis(2))
    else if s == "dead-zone-rotation-x" then Some(DeadAxis(3))
    else if s == "dead-zone-rotation-y" then Some(DeadAxis(4))
    else if s == "dead-zone-rotation-z" then Some(DeadAxis(5))
    else None
  }

  function ParseSens(s: string): Option<Key> {
    if s == "sensitivity" then Some(Sens)
    else if s == "sensitivity-translation" then Some(SensTrans)
    else if s == "sensitivity-translation-x" then Some(SensT(0))
    else if s == "sensitivity-translation-y" then Some(SensT(1))
    else if s == "sensitivity-translation-z" then Some(SensT(2))
    else None
  }

  function ParseRot(s: string): Option<Key> {
    if s == "sensitivity-rotation" then Some(SensRot)
    else if s == "sensitivity-rotation-x" then Some(SensR(0))
    else if s == "sensitivity-rotation-y" then Some(SensR(1))
    else if s == "sensitivity-rotation-z" then Some(SensR(2))
    else None
  }

  function ParseMaps(s: string): Option<Key> {
    if s == "invert-rot" then Some(InvRot)
    else if s == "invert-trans" then Some(InvTrans)
    else if s == "swap-yz" then Some(SwapYZ)
    else if ScanIndex(s, "axismap").Some? then Some(AxisMap(ScanIndex(s, "axismap").value))
    else if ScanIndex(s, "bnmap").Some? then Some(BnMap(ScanIndex(s, "bnmap").value))
    else if ScanIndex(s, "bnact").Some? then Some(BnAct(ScanIndex(s, "bnact").value))
    else if ScanIndex(s, "kbmap").Some? then Some(KbMap(ScanIndex(s, "kbmap").value))
    else None
  }

  function ParseRest(s: string): Option<Key> {
    if s == "led" then Some(Led)
    else if s == "kbmap_use_x11" then Some(UseX11)
    else if s == "grab" then Some(Grab)
    else if s == "serial" then Some(Serial)
    else if s == "device-id" then Some(DevId)
    else if s == "socket" then Some(SockPath)
    else if s == "hold-timeout" then Some(Hold)
    else if ScanIndex(s, "bnhold").Some? then Some(BnHold(ScanIndex(s, "bnhold").value))
    else None
  }

  /** The option a name denotes. Indices are not yet range-checked. */
  function ParseKey(s: string): Option<Key> {
    if s == "repeat-interval" then Some(Repeat)
    else if ParseDead(s).Some? then ParseDead(s)
    else if ParseSens(s).Some? then ParseSens(s)
    else if ParseRot(s).Some? then ParseRot(s)
    else if ParseMaps(s).Some? then ParseMaps(s)
    else ParseRest(s)
  }

  /** The options write_cfg prints or removes, with indices inside the arrays. */
  predicate Saved(k: Key) {
    match k
    case DeadZoneN(i) => 0 <= i < MAX_AXES
    case AxisMap(i) => 0 <= i < MAX_AXES
    case BnMap(i) => 0 <= i < MAX_BUTTONS
    case BnHold(i) => 0 <= i < MAX_BUTTONS
    case BnAct(i) => 0 <= i < MAX_BUTTONS
    case KbMap(i) => 0 <= i < MAX_BUTTONS
    case SensT(a) => 0 <= a < 3
    case SensR(a) => 0 <= a < 3
    case DeadAxis(_) => false
    case UseX11 => false
    case _ => true
  }

  // Which families a name can belong to, told from its first letters.

  lemma NotDead(s: string)
    requires |s| >= 3 && (s[0] != 'd' || s[2] != 'a')
    ensures ParseDead(s) == None
  {
    hide ScanInt;
    assert "dead-zone"[0] == 'd' && "dead-zone"[2] == 'a';
  }

  lemma NotSens(s: string)
    requires |s| >= 3 && s[2] != 'n'
    ensures ParseSens(s) == None && ParseRot(s) == None
  {
  }

  lemma NotMaps(s: string)
    requires |s| >= 3 && s[0] != 'i' && s[0] != 'a' && s[0] != 'b' && s[0] != 'k' && (s[0] == 's' ==> s[1] != 'w')
    ensures ParseMaps(s) == None
  {
  }

  lemma NoIndex(s: string, prefix: string)
    requires |s| >= 3 && |prefix| >= 3 && (s[0] != prefix[0] || s[2] != prefix[2])
    ensures ScanIndex(s, prefix) == None
  {
  }

  // the family's answer is the answer

  lemma FromMaps(s: string, k: Key)
    requires |s| >= 3 && s[0] != 'r' && (s[0] != 'd' || s[2] != 'a') && s[2] != 'n'
    requires ParseMaps(s) == Some(k)
    ensures ParseKey(s) == Some(k)
  {
    NotDead(s);
    NotSens(s);
  }

  lemma FromRest(s: string, k: Key)
    requires |s| >= 3 && s[0] != 'r' && (s[0] != 'd' || s[2] != 'a') && s[2] != 'n'
    requires ParseMaps(s) == None && ParseRest(s) == Some(k)
    ensures ParseKey(s) == Some(k)
  {
    NotDead(s);
    NotSens(s);
  }

  lemma ParseAxisMap(s: string, i: int)
    requires ScanIndex(s, "axismap") == Some(i) && |s| >= 3 && s[0] == 'a' && s[2] == 'i'
    ensures ParseMaps(s) == Some(AxisMap(i))
  {
  }

  lemma ParseBnMap(s: string, i: int)
    requires ScanIndex(s, "bnmap") == Some(i) && |s| >= 3 && s[0] == 'b' && s[2] == 'm'
    ensures ParseMaps(s) == Some(BnMap(i))
  {
    NoIndex(s, "axismap");
  }

  lemma ParseBnAct(s: string, i: int)
    requires ScanIndex(s, "bnact") == Some(i) && |s| >= 3 && s[0] == 'b' && s[2] == 'a'
    ensures ParseMaps(s) == Some(BnAct(i))
  {
    NoIndex(s, "axismap");
    NoIndex(s, "bnmap");
  }

  lemma ParseKbMap(s: string, i: int)
    requires ScanIndex(s, "kbmap") == Some(i) && |s| >= 3 && s[0] == 'k' && s[2] == 'm'
    ensures ParseMaps(s) == Some(KbMap(i))
  {
    NoIndex(s, "axismap");
    NoIndex(s, "bnmap");
    NoIndex(s, "bnact");
  }

  lemma NotMapsHold(s: string)
    requires |s| >= 3 && s[0] == 'b' && s[2] == 'h'
    ensures ParseMaps(s) == None
  {
    NoIndex(s, "axismap");
    NoIndex(s, "bnmap");
    NoIndex(s, "bnact");
    NoIndex(s, "kbmap");
  }

  lemma ParseBnHold(s: string, i: int)
    requires ScanIndex(s, "bnhold") == Some(i) && |s| >= 3 && s[0] == 'b'
    ensures ParseRest(s) == Some(BnHold(i))
  {
    hide ScanIndex;
  }

  lemma ParseFixedDevice(k: Key)
    requires k.Led? || k.Grab? || k.DevId?
    ensures ParseKey(KeyText(k)) == Some(k)
  {
    var s := KeyText(k);
    NotMaps(s);
    FromRest(s, k);
  }

  lemma ParseFixed(k: Key)
    requires k.Serial? || k.SockPath? || k.Hold?
    ensures ParseKey(KeyText(k)) == Some(k)
  {
    var s := KeyText(k);
    NotMaps(s);
    FromRest(s, k);
  }

  lemma ParseFixedMaps(k: Key)
    requires k.InvRot? || k.InvTrans? || k.SwapYZ?
    ensures ParseKey(KeyText(k)) == Some(k)
  {
    FromMaps(KeyText(k), k);
  }

  lemma ParseFixedTrans(k: Key)
    requires Saved(k) && (k.Sens? || k.SensTrans? || k.SensT?)
    ensures ParseKey(KeyText(k)) == Some(k)
  {
    hide ParseDead, ParseRot, ParseMaps, ParseRest;
    NotDead(KeyText(k));
  }

  lemma NotTrans(s: string)
    requires |s| > 12 && s[12] == 'r'
    ensures ParseSens(s) == None
  {
  }

  lemma ParseFixedRot(k: Key)
    requires Saved(k) && (k.SensRot? || k.SensR?)
    ensures ParseKey(KeyText(k)) == Some(k)
  {
    hide ParseDead, ParseSens, ParseMaps, ParseRest;
    NotDead(KeyText(k));
    NotTrans(KeyText(k));
  }

  lemma ParseAxisMapKey(i: int)
    requires IsInt(i)
    ensures ParseKey("axismap" + Dec(i)) == Some(AxisMap(i))
  {
    var s := "axismap" + Dec(i);
    IndexOfName("axismap", i);
    ParseAxisMap(s, i);
    FromMaps(s, AxisMap(i));
  }

  lemma ParseBnMapKey(i: int)
    requires IsInt(i)
    ensures ParseKey("bnmap" + Dec(i)) == Some(BnMap(i))
  {
    var s := "bnmap" + Dec(i);
    IndexOfName("bnmap", i);
    ParseBnMap(s, i);
    FromMaps(s, BnMap(i));
  }

  lemma ParseBnActKey(i: int)
    requires IsInt(i)
    ensures ParseKey("bnact" + Dec(i)) == Some(BnAct(i))
  {
    var s := "bnact" + Dec(i);
    IndexOfName("bnact", i);
    ParseBnAct(s, i);
    FromMaps(s, BnAct(i));
  }

  lemma ParseKbMapKey(i: int)
    requires IsInt(i)
    ensures ParseKey("kbmap" + Dec(i)) == Some(KbMap(i))
  {
    var s := "kbmap" + Dec(i);
    IndexOfName("kbmap", i);
    ParseKbMap(s, i);
    FromMaps(s, KbMap(i));
  }

  lemma ParseBnHoldKey(i: int)
    requires IsInt(i)
    ensures ParseKey("bnhold" + Dec(i)) == Some(BnHold(i))
  {
    var s := "bnhold" + Dec(i);
    IndexOfName("bnhold", i);
    NotMapsHold(s);
    ParseBnHold(s, i);
    FromRest(s, BnHold(i));
  }

  lemma IndexOfName(prefix: string, i: int)
    requires IsInt(i) && |prefix| >= 3
    ensures var s := prefix + Dec(i);
            ScanIndex(s, prefix) == Some(i) && |s| > |prefix| && s[0] == prefix[0] && s[2] == prefix[2]
  {
    assert (prefix + Dec(i))[|prefix|..] == Dec(i);
    ScanOfDec(i);
  }

  /** Every option name is recognised as the option it was printed for. */
  lemma ParseOfKeyText(k: Key)
    requires Saved(k)
    ensures ParseKey(KeyText(k)) == Some(k)
  {
    match k
    case DeadZoneN(i) => IndexOfName("dead-zone", i);
    case Repeat =>
    case DeadZone =>
    case InvRot => ParseFixedMaps(k);
    case InvTrans => ParseFixedMaps(k);
    case SwapYZ => ParseFixedMaps(k);
    case Sens => ParseFixedTrans(k);
    case SensTrans => ParseFixedTrans(k);
    case SensT(_) => ParseFixedTrans(k);
    case SensRot => ParseFixedRot(k);
    case SensR(_) => ParseFixedRot(k);
    case AxisMap(i) => ParseAxisMapKey(i);
    case BnMap(i) => ParseBnMapKey(i);
    case BnAct(i) => ParseBnActKey(i);
    case KbMap(i) => ParseKbMapKey(i);
    case BnHold(i) => ParseBnHoldKey(i);
    case Led => ParseFixedDevice(k);
    case Grab => ParseFixedDevice(k);
    case DevId => ParseFixedDevice(k);
    case _ => ParseFixed(k);
  }

  /** Two options never share a name. */
  lemma KeyTextInjective(k: Key, j: Key)
    requires Saved(k) && Saved(j) && KeyText(k) == KeyText(j)
    ensures k == j
  {
    ParseOfKeyText(k);
    ParseOfKeyText(j);
  }

  predicate Name(s: string) {
    && 3 <= |s| <= 40
    && s[0] != '#'
    && forall i :: 0 <= i < |s| ==> !IsSep(s[i]) && !IsSpace(s[i])
  }

  lemma IndexedName(prefix: string, i: int)
    requires 3 <= |prefix| <= 20 && Name(prefix) && 0 <= i < 64
    ensures Name(prefix + Dec(i))
  {
    DecLength(i);
  }

  lemma FixedNames1(k: Key)
    requires k.Repeat? || k.Hold? || k.DeadZone? || k.InvRot? || k.InvTrans? || k.SwapYZ?
    ensures Name(KeyText(k))
  {
  }

  lemma FixedNames2(k: Key)
    requires k.Led? || k.Grab? || k.Serial? || k.DevId? || k.SockPath? || k.Sens?
    ensures Name(KeyText(k))
  {
  }

  lemma FixedNames3(k: Key)
    requires k.SensTrans? || k.SensT?
    ensures Name(KeyText(k))
  {
  }

  lemma FixedNames4(k: Key)
    requires k.SensRot? || k.SensR?
    ensures Name(KeyText(k))
  {
  }

  lemma KeyTextIsName(k: Key)
    requires Saved(k)
    ensures Name(KeyText(k))
  {
    match k
    case DeadZoneN(i) => IndexedName("dead-zone", i);
    case AxisMap(i) => IndexedName("axismap", i);
    case BnMap(i) => IndexedName("bnmap", i);
    case BnAct(i) => IndexedName("bnact", i);
    case KbMap(i) => IndexedName("kbmap", i);
    case BnHold(i) => IndexedName("bnhold", i);
    case _ =>
      if k.SensTrans? || k.SensT? {
        FixedNames3(k);
      } else if k.SensRot? || k.SensR? {
        FixedNames4(k);
      } else if k.Led? || k.Grab? || k.Serial? || k.DevId? || k.SockPath? || k.Sens? {
        FixedNames2(k);
      } else {
        FixedNames1(k);
      }
  }
}
