/** What a configuration file can and cannot put into the configuration. */
module CfgRanges {
  import opened Basics
  import opened CText
  import opened Config
  import opened CfgKeys
  import opened CfgTable
  import opened CfgRead

  lemma MapSane(k: Key, val: string, st: Reader)
    requires st.Valid() && st.cfg.Sane()
    ensures StoreMap(k, val, st).st.cfg.Sane()
  {
    hide IntVal, IsIntVal, ParseBnact;
    ActSane(val);
  }

  lemma ActSane(val: string)
    ensures ParseBnact(val).Some? ==> 0 <= ParseBnact(val).value < MAX_BNACT
  {
  }

  lemma OptionSane(k: Key, val: string, st: Reader)
    requires st.Valid() && (k.SensT? || k.SensR? ==> 0 <= k.a < 3) && (k.DeadAxis? ==> 0 <= k.a < 6)
    requires st.cfg.Sane()
    ensures ParseOption(k, val, st).st.cfg.Sane()
  {
    hide IntVal, IsIntVal, IsBoolVal, ScanReal, ScanDevId, StoreMap, ParseBnact;
    MapSane(k, val, st);
  }

  lemma LineSane(line: string, st: Reader)
    requires st.Valid() && st.cfg.Sane()
    ensures ParseLine(line, st).st.cfg.Sane()
  {
    hide ParseOption, ParseKey, Tokens;
    match Tokens(line)
    case None =>
    case Some((key, val)) =>
      ParseKeyAxes(key);
      match ParseKey(key)
      case None =>
      case Some(k) => OptionSane(k, val, st);
  }

  lemma {:induction false} FromSane(text: string, st: Reader)
    requires st.Valid() && st.cfg.Sane()
    ensures ReadFrom(text, st).cfg.Sane()
    decreases |text|
  {
    hide ParseLine, Chop;
    if text != "" {
      var line := Chop(text[..FgetsLength(text)]);
      LineSane(line, st);
      FromSane(text[FgetsLength(text)..], ParseLine(line, st).st);
    }
  }

  /**
   Whatever a file holds, the configuration read from it maps only to existing buttons,
   actions and axes, as long as its device ids fit the list.
   */
  lemma ReadSane(text: string)
    requires !ReadFrom(text, Start()).Overflowed()
    ensures Read(text).Sane()
  {
    FromSane(text, Start());
  }

  /** The LED setting alone is not checked: any integer in the file is stored. */
  lemma LedUnchecked(v: int, st: Reader)
    requires st.Valid() && IsInt(v)
    ensures ParseOption(Led, Dec(v), st).st.cfg.led == v
  {
    hide ScanInt, Dec, ScanReal, BoolWord;
    ScanOfDec(v);
  }
}
