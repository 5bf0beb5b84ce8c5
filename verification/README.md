# spacenavd: a verified model of the daemon's stateful core

spacenavd is a single-threaded daemon that reads 6-degree-of-freedom input devices and
serves their motion and buttons to clients. This project models its stateful components
and proves what they promise over whole runs:

- the **configuration file**: the line editor and printer of `write_cfg`, the parser of
  `read_cfg`, what a reload returns after any history of saves, and when the last save wins
  after saves and reloads in any order (`CText`, `Config`, `CfgKeys`, `CfgTable`, `CfgWrite`,
  `CfgRead`, `CfgSave`, `CfgReload`, `CfgForeign`, `CfgInvalid`, `CfgRanges`, `CfgTheorems`,
  `CfgShape`, `CfgMixed`, `CfgReread`, `CfgRemember`, `CfgHistories`, `CfgAgain`, `CfgOptions`);
- the **serial device stack**: CR framing, in-place unescaping, packet decoding into shadow
  state, change events and the drop-oldest ring queue (`SerialFraming`, `SerialPackets`,
  `SerialDevice`, `SerialWire`);
- the **event pipeline**: coalesced motion, implicit flushes, taps and holds decided by
  deadlines, the `select()` timeout and motion periods (`Inputs`, `Events`, `EventSlots`,
  `EventRuns`, `EventDeadlines`, `EventMotion`, `EventHistory`, `EventRounds`, `EventValues`,
  `EventEffects`, `EventLoop`, `DeviceAxes`);
- the **client protocol**: chunked strings, handshake and record reassembly, the client list
  and its shared iterator, the request handler, whole rounds of client reads
  (`StringTransfer`, `Connections`, `Clients`, `ClientWalk`, `Requests`, `RequestEffects`,
  `Rounds`, `WireRecords`);
- the **LED policy**, kept jointly by the client list, configuration changes and device
  opening (`Leds`, `Daemon`).

`Basics` holds what they share: `Option`, the C integer widths, and the swap of y and z.
Code that updates state step by step is a class with methods (`LineTable`, `Sball`,
`EventQueue`, `StrBuf`, `Client`, `ClientList`, `Devices`, `Daemon`), each proved against a
function or relation; the properties of runs are lemmas about those. What those functions
compute is in turn stated from outside, by encoders of the wire formats (`SerialWire`,
`WireRecords`), by the lines of a user's file (`CfgOptions`), by the fields a request changes
(`RequestEffects`), and by the numbers an event shows (`EventValues`, `EventEffects`).
`dafny verify dfyconfig.toml` checks everything.

## What turned out false of the code

Each of these but the last has its exact condition as a lemma, for all inputs.

- **Saving and reloading** does not always give the configuration back. Two equivalences say
  when it does. `LastSaveWins` is about histories of saves from an empty table: it fails for
  values the printer rounds or the parser refuses (`Faithful`; `axismapN = -1` is one), for
  dead zones that are 64 twos or that return to the default over a common `dead-zone` line, and
  for device ids that do not extend the ids already in the table.
- **Saves and reloads in any order**, starting from nothing or from an orderly file of the user's
  (`OrderlyFits`), have the equivalence `LastSaveWinsMixed`; `ReloadThenSave` is the case of one
  reload of a saved file. Beyond the conditions above, an option that returns to its default keeps
  its line (`Stays`) if only the daemon's own lines are removed for it, which are hold-timeout,
  led, grab, and the sensitivities and dead zones in whichever of their two forms the values call
  for (`OwnOnly`); or if a line of that name comes before it that `read_cfg` had refused, as that
  one is removed instead. Such a line must say what was saved (`Says`); `DefaultKeeps` lists the
  lines that stay when everything returns to its default. The repeat interval comes back if the last of the repeat-interval lines left over
  says it (`RepeatKept`). `ReloadBetweenSaves` is the smallest run that fails.
- **Saving the same configuration again** changes nothing after a history of saves alone
  (`SaveTwice`, `SameFileTwice`). After reloads it can remove one more line: over every table that
  saves and reloads leave, the second save changes nothing, in the table or in the file, if and
  only if at most one line of the name of each option to be removed was there when its step came
  (`SecondSaveIff`). More can be there where a refused line, or a second line, of that name was
  read; a second repeat-interval line counts too. `SecondSaveRemoves` is a run.
- **Invalid values** of most options are reported and stored all the same, as the `continue` of
  the `EXPECT` macro leaves only the macro's own loop. What is stored instead is the number in
  the value, or 0, for the options that expect a number or an integer (1 or 0 for the words of a
  truth value where an integer is expected), and no action for a button action. An invalid value
  leaves everything as it was if and only if the fields already hold that, or the option skips it:
  swap-yz, led, grab, kbmap_use_x11 and device-id do, and so does every test of a range
  (`InvalidKeptIff`, `InvalidLine`). Three files show it (`InvalidFiles`).
- **Device ids** beyond the 64th are written past the end of the list. The file of a history has
  that effect exactly if it collected more than 64 ids (`OverflowIff`, `MixedOverflowIff`), and
  two saves are enough (`TwoSavesOverflow`).
- **The user's own lines** (comments, blanks, unrecognised names) survive a save exactly if repeat
  is off or the first line tagged `CFG_REPEAT` when its step comes is none of them; 0 is that tag,
  and the tag of untagged lines (`SaveKeepsForeign`, `SaveKeepsComments`). Over the tables that
  saves and reloads leave, this can be checked on the table itself, before the save
  (`RepeatSafeIs`); a file of one comment loses it (`NoteOverwritten`).
- **The LED setting** in a file is not range-checked (`LedUnchecked`); all other indices are
  (`ReadSane`).
- **`proc_input`** moves as many bytes as it consumed instead of as many as are left. `KeptIff`
  and `SafeIffShort` say exactly when the tail survives, and `LongTailGarbles` gives two packets
  of which the second arrives as another one. Reads are capped one byte below the buffer size, so
  the discard of a full buffer is never reached (`FullBufferStays`).
- **Axis normalisation** holds exactly if the width of the range times 1000 fits an `int`
  (`NormalisesIffFits`).
- **The client walk** visits every client exactly once exactly if no request restarts the shared
  iterator before the last client is served (`VisitsOnceIff`). Otherwise it visits some client
  twice, or the client it has just dropped and freed (`TurnsBack`). `RequestRestarts` lists the
  requests that restart it: switching LEDs to automatic while a device is open, and a changed
  serial path, by its own request, a restore or a reset, when a device goes or one is tried.
- **Strings** longer than 65535 bytes never arrive (`ArrivesIffShort`).
- The comments of `src/proto.h` give `REQ_SET_NAME`, `REQ_SCFG_SERDEV` and `REQ_SCFG_SOCKET` a
  status reply; the code sends none, and the model follows the code.

## Model

| member | source | states |
|---|---|---|
| StringTransfer.SendStr | src/proto.c:8-32 | the packets sent carry the string: 24 bytes each, remaining length, continuation bit on all but the first, max(1, ceil(n/24)) of them |
| StringTransfer.StrBuf.Recv | src/proto.c:34-75 | the in-place receiver computes the receiver step, stays inside its buffer and NUL-terminates a completed string |
| StringTransfer.StrBuf.Take | src/proto_unix.c:303-313 | handing the buffer to the client record leaves the receiver idle |
| StringTransfer.Step | src/proto.c:34-75 | a live buffer always has room for exactly the bytes still awaited and the NUL; a rejected packet changes nothing; 1 is returned only when nothing is awaited |
| StringTransfer.AfterValid | src/proto.c:34-75 | the buffer invariant holds after every packet sequence |
| StringTransfer.RoundTrip | src/proto.c:8-75 | over any prior receiver state a string of at most 65535 bytes returns 0 on all packets but the last, 1 on the last, and the exact string |
| StringTransfer.ArrivesIffShort | src/proto.c:8-75 | the string arrives if and only if it has at most 65535 bytes |
| StringTransfer.CompleteMeansInOrder | src/proto.c:34-75 | for arbitrary packets, 1 is returned only with the in-order chunks of the transfer begun by the latest first packet |
| CfgReload.DefaultGet | src/cfgfile.c:84-124 | the default of every field: factors 1, dead zone 2 on the first six axes and 0 on the others, identity maps, no hold mappings, 350 ms, LEDs on, grabbed, repeat off |
| CText.ScanOfDec | src/cfgfile.c:224-225 | strtol reads back what %d printed |
| CText.ScanOfFixed3 | src/cfgfile.c:227-228 | strtod reads back what %.3f printed, on thousandths |
| CText.ScanOfDevId | src/cfgfile.c:464-476 | the device-id scan reads back the ids printed in hex |
| CfgKeys.ParseOfKeyText | src/cfgfile.c:240-509 | every option name the printer writes is recognised by the parser as that option, in spite of the shared prefixes |
| CfgKeys.KeyTextInjective | src/cfgfile.c:546-769 | different options have different names |
| CfgTable.FindIsFirst | src/cfgfile.c:862-871 | a lookup finds the first live line with the tag, and None only if there is none |
| CfgTable.RunConcat | src/cfgfile.c:546-769 | a script of edits can be cut anywhere |
| CfgTable.ApplyTidy | src/cfgfile.c:862-958 | one edit of a tidy table keeps it tidy, changes exactly the option it names and only adds device ids |
| CfgWrite.LineTable.FindFirst | src/cfgfile.c:862-871 | the loop returns the first line an edit looks for |
| CfgWrite.LineTable.AddCfgopt | src/cfgfile.c:873-894 | the option's first live line is replaced or one is appended, marked as the daemon's own |
| CfgWrite.LineTable.AddCfgoptDevid | src/cfgfile.c:896-929 | a device id is written once |
| CfgWrite.LineTable.RmCfgopt | src/cfgfile.c:931-958 | the first line of that name is removed, with RMCFG_OWN only if the daemon added it |
| CfgWrite.LineTable.WriteTri | src/cfgfile.c:554-612 | the whole-or-per-axis sensitivity logic for translation and rotation |
| CfgWrite.LineTable.WriteDead | src/cfgfile.c:614-641 | the dead-zone logic: one common line, or one line for each axis that differs from its default |
| CfgWrite.LineTable.WriteFamilies | src/cfgfile.c:681-724 | the indexed options |
| CfgWrite.LineTable.WriteDevs | src/cfgfile.c:744-748 | the device ids up to the end marker |
| CfgWrite.LineTable.WriteCfg | src/cfgfile.c:525-779 | the whole edit of the table and the text written |
| CfgRead.ReadCfg | src/cfgfile.c:151-515 | the reading loop computes the configuration, the number of device ids scanned without a bound, and the remembered lines, none of them the daemon's own |
| CfgOptions.TruthLines | src/cfgfile.c:143-149 | each of the six truth words sets swap-yz, led, grab or kbmap_use_x11 to 0 or 1 in turn, from false on, and nothing else |
| CfgOptions.TruthFiles | src/cfgfile.c:230-238 | a file of one such line gives the defaults with that one field set |
| CfgOptions.NumberLines | src/cfgfile.c:240-250 | the options of one number set their field to it; a negative hold-timeout is skipped |
| CfgOptions.LongNumber | src/cfgfile.c:224-225 | a number that fits a long but not an int keeps its low 32 bits |
| CfgOptions.IndexedLines | src/cfgfile.c:375-400 | dead-zoneN, axismapN, bnmapN and bnholdN set entry N of their own table, and skip a value out of range |
| CfgOptions.FactorLines | src/cfgfile.c:297-341 | the nine sensitivity options set all motion, three axes or one |
| CfgOptions.ActionLine | src/cfgfile.c:402-413 | bnactN takes the seven actions by name |
| CfgOptions.AutoLine | src/cfgfile.c:429-440 | led = auto |
| CfgOptions.TextLines | src/cfgfile.c:415-427 | kbmapN, serial and socket take any word |
| CfgOptions.InvertTransLine | src/cfgfile.c:354-364 | the letters of invert-trans invert x, y and z |
| CfgOptions.InvertRotLine | src/cfgfile.c:342-352 | the letters of invert-rot invert rx, ry and rz |
| CfgOptions.DeviceLine | src/cfgfile.c:464-475 | device-id takes the next place of the list |
| CfgOptions.DeprecatedLines | src/cfgfile.c:261-296 | the six old dead-zone names set device axes 0 to 5 |
| CfgOptions.DecimalNotation | src/cfgfile.c:224-225 | numbers are read and printed in decimal, digit by digit |
| CfgOptions.PointNotation | src/cfgfile.c:227-228 | and factors with a point and three digits |
| CfgOptions.HexNotation | src/cfgfile.c:464-475 | device ids are read and printed in base 16 |
| CfgOptions.NearestPrinted | src/cfgfile.c:548-549 | a save prints the nearest number of thousandths |
| CfgSave.ScriptAgrees | src/cfgfile.c:546-769 | every edit of a save writes or removes what the configuration wants, and every option but some dead zones is decided |
| CfgSave.SaveStep | src/cfgfile.c:546-769 | a save turns a table standing for one configuration into one standing for the next |
| CfgSave.HistoryStands | src/cfgfile.c:525-779 | after any history of saves the table stands for what the history means |
| CfgReload.StoreFrame | src/cfgfile.c:240-509 | storing one option changes only the fields it affects |
| CfgReload.ReadBack | src/cfgfile.c:240-509 | parsing a printed option gives the field its printed value |
| CfgReload.ReadTable | src/cfgfile.c:192-510 | reading the text of a table scans every device id in it, and gives exactly what the table stands for if the 64 places of the list hold them |
| CfgTheorems.ReloadIs | src/cfgfile.c:525-779 | after any history of saves that collected at most 64 device ids a reload returns exactly what the history means |
| CfgTheorems.OverflowIff | src/cfgfile.c:464-470 | the device list is overrun by reading exactly if the history collected more than 64 ids |
| CfgTheorems.TwoSavesOverflow | src/cfgfile.c:464-470 | two concrete saves whose file overruns the list |
| CfgTheorems.NormalIffFaithful | src/cfgfile.c:546-769 | printing and parsing leave a configuration unchanged if and only if every value is one both agree on |
| CfgTheorems.DeadSurvives | src/cfgfile.c:614-641 | exactly when the dead zones survive a save |
| CfgTheorems.DevsSurvive | src/cfgfile.c:744-748 | exactly when the device list survives a save |
| CfgTheorems.LastSaveWins | src/cfgfile.c:525-779 | over any history, reloading gives back the configuration saved last if and only if it is faithful, its dead zones survive and its device list extends the stored one |
| CfgTheorems.SameFileTwice | src/cfgfile.c:525-779 | after any history of saves alone, saving the same configuration twice gives identical text |
| CfgTheorems.ReloadBetweenSaves | src/cfgfile.c:931-958 | the smallest run in which a reload between saves loses the last save |
| CfgShape.StepShape | src/cfgfile.c:862-958 | one edit of a table that saves and reloads have left keeps its shape, and decides exactly the option it touches: the line is written, removed, or stays behind a refused line of the same name or because the daemon does not own it |
| CfgMixed.SaveSlot | src/cfgfile.c:546-769 | what a whole save makes of every option of such a table |
| CfgReread.FieldHeld | src/cfgfile.c:192-510 | reading such a table gives each field what the line of its option says read alone, whatever the other lines hold |
| CfgRemember.RememberIs | src/cfgfile.c:192-510 | the table a reload remembers, line by line: refused values leave their line untagged, and an extra newline becomes a line |
| CfgRemember.RereadShape | src/cfgfile.c:192-510 | that table has the shape again, with the same device ids |
| CfgHistories.RepeatComesBack | src/cfgfile.c:643-647 | the repeat interval is read back exactly if the last repeat-interval line the save leaves over says it |
| CfgHistories.TurnsFit | src/cfgfile.c:525-779 | every mixture of saves and reloads leaves a shaped table without rival options |
| CfgHistories.SaveComesBack | src/cfgfile.c:151-779 | over any table of that shape, a save is read back exactly if `ComesBack` holds, which looks only at the table before and the configuration |
| CfgHistories.OrderlyFits | src/cfgfile.c:192-510 | the table of a user's file has the shape if each line is a comment, a blank, an unknown name, a device id, or an option as the daemon prints it with any value, no other option stands twice or beside a rival, and the device ids are distinct and no end markers |
| CfgHistories.DeviceOrderly | src/cfgfile.c:896-929 | every device-id line as the daemon prints it may stand in such a file |
| CfgHistories.LastSaveWinsMixed | src/cfgfile.c:151-779 | after saves and reloads in any order of an empty table or such a file, and one more save, the file gives back the configuration saved last if and only if it is faithful, every line that stays says what it says, the repeat lines left over agree, and its device list extends the one in the table |
| CfgHistories.ReloadThenSave | src/cfgfile.c:151-779 | the same for the file of any history of saves, read and saved over once, in terms of the reread table alone |
| CfgHistories.MixedOverflowIff | src/cfgfile.c:464-470 | reading overruns the device list exactly if the table holds more than 64 ids |
| CfgForeign.SaveKeepsForeign | src/cfgfile.c:862-871 | over every table, the lines of the user's own keep place and text through a save if and only if repeat is off or the first line tagged 0 at the repeat-interval step is none of them |
| CfgForeign.SaveKeepsComments | src/cfgfile.c:192-214 | the same for the table of any file just read, where every comment, blank and unrecognised line is one of the user's own |
| CfgMixed.RepeatSafeIs | src/cfgfile.c:643-647 | over the tables that saves and reloads leave, the condition is that repeat is off or the first line tagged 0 before the save is none of the user's own |
| CfgHistories.NoteOverwritten | src/cfgfile.c:862-894 | a file of one comment: the condition is that repeat is off, and every save with repeat on overwrites it |
| CfgForeign.UnreadForeign | src/cfgfile.c:206-222 | comments, blanks and lines with an unknown name are never taken for an option, by reading or by saving |
| CfgForeign.ForeignOverwritten | src/cfgfile.c:862-894 | otherwise that first line is one of the user's own, and is overwritten |
| CfgForeign.UserLineStays | src/cfgfile.c:931-958 | a default value of any option removed with RMCFG_OWN leaves a user's line in place |
| CfgForeign.SaveTwice | src/cfgfile.c:525-779 | over a table that saves alone have built, a second save of the same configuration changes no line |
| CfgAgain.SecondSaveIff | src/cfgfile.c:525-779 | over every table that saves and reloads leave, a second save of the same configuration changes neither table nor file if and only if at most one line of the name of each option to be removed was there when its step came |
| CfgAgain.SecondSaveRemoves | src/cfgfile.c:931-958 | a run of saves with one reload after which the first save of the default removes one line and the second save another |
| CfgAgain.DefaultKeeps | src/cfgfile.c:546-769 | exactly which lines stay when the whole configuration returns to its defaults: hold-timeout, led, grab, the common sensitivities and single dead zones if the user wrote them, and a common dead-zone line whoever wrote it |
| CfgRanges.ReadSane | src/cfgfile.c:240-509 | whatever a file with at most 64 device ids holds, buttons, actions, hold mappings, axes and the hold timeout are in range after reading |
| CfgInvalid.InvalidKeptIff | src/cfgfile.c:240-509 | for every option, value and reader, a value of the wrong kind or out of range leaves the reader as it was if and only if the option skips such values or its fields already hold what is stored instead |
| CfgInvalid.InvalidLine | src/cfgfile.c:135-141 | the same from the line of a file, for every option a save writes and every value the tokenizer passes on whole: the error macro only leaves its own loop |
| CfgInvalid.InvalidFiles | src/cfgfile.c:135-141 | three files: `repeat-interval = yes` stores 1, `sensitivity = abc` stores 0, `led = abc` changes nothing |
| CfgRanges.LedUnchecked | src/cfgfile.c:151-515 | any integer given for led is stored |
| SerialFraming.KeptIff | src/dev_serial.c:349-352 | exactly when the moved bytes are the unconsumed tail |
| SerialFraming.SafeIffShort | src/dev_serial.c:349-352 | the tail is kept for every content if and only if it is no longer than the consumed prefix |
| SerialFraming.LongTailGarbles | src/dev_serial.c:331-355 | two packets and a split for which the second is delivered as another packet |
| SerialFraming.Reassembly | src/dev_serial.c:331-355 | while tails stay short, the frames handled are those of the concatenated bytes, however reads split them |
| SerialFraming.DecodeEscape | src/dev_serial.c:432-456 | unescaping undoes escaping, for every payload |
| SerialFraming.FramingRoundTrip | src/dev_serial.c:331-355 | escaped packets ended by CR arrive exactly and in order for every split into reads that keeps tails short |
| SerialFraming.FullBufferStays | src/dev_serial.c:219-230 | a full buffer without CR stays full: the reader stops at 255 bytes, below the discard limit |
| SerialPackets.ReplayPacket | src/dev_serial.c:365-405 | the events of a packet tell a listener exactly what it changed |
| SerialPackets.ReplayRun | src/dev_serial.c:458-545 | folding all events of a run over the old state reproduces axes and buttons |
| SerialPackets.OneFlush | src/dev_serial.c:475-490 | a non-empty motion batch ends in exactly one flush |
| SerialPackets.ButtonsInRangeRun | src/dev_serial.c:482-545 | on the spaceball path every button index is below the current button count, also across the switch to 12 buttons |
| SerialPackets.PushAllNewest | src/dev_serial.c:688-729 | enqueueing keeps the newest 63 events |
| SerialPackets.QueueConserves | src/dev_serial.c:232-236 | over any interleaving, read plus queued plus overwritten events are those enqueued, the queue is a suffix, and nothing is lost if and only if no enqueue met a full queue |
| SerialDevice.RingPush | src/dev_serial.c:688-705 | one step of the ring indices is a push that drops the oldest event when full |
| SerialDevice.RingPop | src/dev_serial.c:232-236 | one read of the ring takes the oldest event; empty if and only if the indices are equal |
| SerialDevice.Sball.Enqueue | src/dev_serial.c:688-705 | the ring behaves as the bounded queue |
| SerialDevice.Sball.Dequeue | src/dev_serial.c:232-237 | the reader takes the oldest event or reports none |
| SerialDevice.Sball.GenButtonEvents | src/dev_serial.c:707-729 | one event for each changed button bit |
| SerialDevice.Sball.StoreAxes | src/dev_serial.c:475-490 | changed axes are stored and announced, followed by one flush if any changed |
| SerialDevice.Sball.DecodeInPlace | src/dev_serial.c:432-456 | the two-pointer loop leaves the decoded bytes at the front and touches nothing else |
| SerialDevice.Sball.ParsePacket | src/dev_serial.c:357-574 | both packet parsers on the shadow state, which `SerialWire` tells from the bytes |
| SerialWire.SballMotion | src/dev_serial.c:458-489 | a D packet made of two period bytes and six big-endian shorts sets the axes to exactly those values |
| SerialWire.MagMotion | src/dev_serial.c:365-392 | a d packet made of four base-16 digits an axis, biased by 0x8000, sets the axes to those values, with z and rz turned |
| SerialWire.SballKeys | src/dev_serial.c:492-511 | which bit of which byte of a K packet is which button, within the key mask |
| SerialWire.TwelveKeys | src/dev_serial.c:513-545 | the same for a '.' packet, which makes the device one of twelve buttons |
| SerialWire.MagKeys | src/dev_serial.c:394-409 | the same for a k packet of three bytes or more |
| SerialWire.OtherIgnored | src/dev_serial.c:357-574 | every other packet, and one of the wrong length, changes nothing |
| SerialWire.EventsTell | src/dev_serial.c:707-729 | a packet causes exactly the events of its changes: the new value of an axis, 1 for a press, 0 for a release |
| SerialWire.EscapeTable | src/dev_serial.c:433-456 | what the four escapes stand for; any other is dropped |
| SerialWire.WireMotion | src/dev_serial.c:331-545 | when the bytes end in a D packet, however they are split with short tails, device and listener have the values it was made of |
| SerialDevice.Sball.ProcInput | src/dev_serial.c:331-355 | every complete line is parsed in order and the buffer holds what the move kept |
| SerialDevice.Sball.ReadDevSerial | src/dev_serial.c:212-238 | all input is consumed as the reads deliver it, then the oldest event is returned |
| SerialDevice.WireToListener | src/dev_serial.c:331-545 | from wire to listener: packets sent with short tails reproduce the device state from the events alone |
| DeviceAxes.NormalisesIffFits | src/dev_usb_linux.c:261-269 | map_range is monotone, maps the ends to -500 and 500 and stays between them if and only if the width times 1000 fits an int |
| DeviceAxes.MapRangeIs | src/dev_usb_linux.c:261-269 | where the width fits, the value is the plain quotient, without overflow |
| DeviceAxes.NormalisedInput | src/dev.c:331-351 | after read_device the bounds still hold, y and z and ry and rz have changed places if the device swaps them, and on them the sign is turned if it inverts them |
| EventHistory.MsecDifIs | src/event.c:507-514 | the period is the unsigned 32-bit number congruent to the difference in whole milliseconds |
| Events.MapAxis | src/event.c:128-141 | the output axis is -1 exactly if the map holds no axis; otherwise the map holds that axis, or with swap-yz its partner |
| EventSlots.SlotStep | src/event.c:198-308 | every step of the pipeline, seen from one button of one device: its new deadline and exactly what is emitted for it |
| EventSlots.TimerPassSays | src/event.c:415-445 | a timer check fires exactly the due slots of the listed devices, each once |
| EventRuns.DeadlineIs | src/event.c:272-279 | a deadline is normalised and lies exactly hold_timeout milliseconds after the press |
| EventRuns.TapOrHold | src/event.c:264-294 | a press and its release cause exactly one adjacent press and release output, at the first timer check past the deadline or at the release, as a hold if and only if the button was down for hold_timeout |
| EventEffects.TapOrHoldSends | src/event.c:152-190 | what the pair carries: the action or keys bound to the button, or else map_hold if it was held that long and map_button if not |
| EventEffects.DirectSends | src/event.c:264-267 | a button without a hold mapping sends the same, with map_button, once for its press and once for its release |
| EventEffects.ActionOnRelease | src/event.c:310-343 | what each of the six actions does to sensitivity, translation, rotation and dominant axis, on release only |
| EventEffects.NeverBothOff | src/event.c:310-343 | over every run translation and rotation are never both disabled |
| EventRuns.Over | src/event.c:281-293 | between presses nothing is emitted: a late or repeated release is ignored |
| EventRuns.EveryPressAccounted | src/event.c:264-294 | over any run, presses equal press outputs plus presses lost to a second press or a removal plus the one still undecided |
| EventDeadlines.StoredDeadline | src/event.c:272-279 | every deadline stored at any time belongs to the latest press, is normalised, and has passed no timer check |
| EventDeadlines.RunSlotsClock | src/event.c:272-279 | in every run from the start all stored deadlines are normalised, as the statements about the wait assume |
| EventDeadlines.HoldMapped | src/event.c:264-267 | only buttons with a hold mapping get deadlines |
| EventDeadlines.RemainingIs | src/event.c:399-411 | the wait is the normalised max(0, earliest - now) |
| EventDeadlines.WaitThenFire | src/spnavd.c:242-271 | nothing awaited is due before the wait is over, and once it is over the timer check fires at least one slot |
| EventDeadlines.CheckIsExact | src/event.c:415-445 | a timer check fires exactly the expired slots and leaves only deadlines after now |
| EventMotion.MotionStep | src/event.c:198-308 | every step of the pipeline, seen from the motion record of one device |
| EventHistory.MotionRefines | src/event.c:215-308 | a flush or button dispatches if and only if a mapped motion input arrived since the last one, and every dispatched or repeated event carries the last cooked value for each axis |
| EventValues.MotionValue | src/event.c:215-250 | a mapped motion input changes one axis of its device, the one of the axis map with y and z exchanged by swap-yz, to its value times both sensitivities without the fraction, its sign turned if the axis is inverted, or to 0 in the dead zone, beaten by the dominant axis, or with its kind disabled; and what the dominant-axis mode notes |
| EventValues.ZeroExactly | src/event.c:215-250 | exactly when nothing is shown |
| EventValues.UnmappedMotion | src/event.c:128-141 | an input mapped to no axis only makes its device known |
| EventValues.DispatchedValues | src/event.c:215-308 | every motion event of a run shows on each axis the value, in that sense, of the last input moved to it, and 0 where none was since the device came |
| EventHistory.FixedConfig | src/event.c:215-250 | without button actions and dominant-axis mode every input of a run is cooked by the same configuration |
| EventHistory.MotionBeforeButtons | src/event.c:252-266 | pending motion goes out before anything the button emits |
| EventHistory.PeriodsAddUp | src/event.c:143-150 | the periods of all motion events of a device add up, modulo 2^32, to the whole milliseconds from its creation to its last dispatch |
| EventHistory.StampIsLast | src/event.c:143-150 | the stamp is the time of the last step that dispatched |
| EventLoop.EventQueue.HandleButtonAction | src/event.c:310-343 | the actions on release |
| EventLoop.EventQueue.EmitButton | src/event.c:152-190 | action, key, key combination or mapped button |
| EventLoop.EventQueue.ProcessInput | src/event.c:198-308 | the whole input step on the globals, with every output logged |
| EventLoop.EventQueue.RepeatLastMotionEvent | src/event.c:358-367 | the last motion is dispatched again with a new period |
| EventLoop.EventQueue.RemoveDevEvent | src/event.c:92-114 | the device's record is forgotten |
| EventLoop.EventQueue.ReadDevice | src/spnavd.c:460-478 | after reading a device and the flush that follows nothing of it is pending, and what is pending of the others has not changed |
| EventRounds.NothingPending | src/spnavd.c:242-478 | however reads, device losses, timer checks, repeats and removals follow each other, no motion of any device is pending between them, in particular at every timer check |
| EventLoop.EventQueue.EmitButtonTimeouts | src/event.c:415-445 | the nested loops are the timer check |
| EventLoop.EventQueue.NextButtonTimeout | src/event.c:369-413 | 1 if and only if no deadline of a valid device is set, else the wait until the earliest one |
| EventLoop.EventQueue.InDeadzone | src/event.c:345-356 | a device counts as in the dead zone if all its motion values are 0 or it has no record |
| EventLoop.EventQueue.ChooseTimeout | src/spnavd.c:242-268 | select waits for the earliest button deadline, or for the repeat interval if a valid device is moving and it ends strictly sooner, or forever |
| EventLoop.NeverLate | src/spnavd.c:242-271 | until the chosen timeout is over no deadline of a valid device is due |
| EventLoop.EventQueue.RepeatMoving | src/spnavd.c:275-285 | after the repeat interval exactly the moving devices dispatch their last motion again |
| Connections.Reassembly | src/proto_unix.c:256-273 | however a version-1 stream is split into reads, exactly its successive 32-byte blocks are handled, fewer than 32 bytes are kept, and the version stays 1 |
| Connections.Session | src/proto_unix.c:219-274 | a whole connection: sensitivity messages, the handshake with the version clamped to 1, then the blocks of the remaining stream |
| Connections.Version0 | src/proto_unix.c:249-254 | without a handshake no request is handled and the sensitivity is the last finite one sent |
| Connections.SplitInvisible | src/proto_unix.c:256-273 | two splits of the same stream cannot be told apart |
| WireRecords.PlainRecord | src/proto_unix.c:297-302 | 32 bytes of a type and seven little-endian integers are taken for that request; the high half of the type does not count |
| WireRecords.TextRecord | src/proto.c:34-45 | and of a type, 24 characters and a length word for that packet |
| WireRecords.Handshake | src/proto_unix.c:231-246 | the bytes of the handshake: the version asked for, at most 1, is taken and sent back |
| WireRecords.SensMessage | src/proto_unix.c:249-254 | any other message without handshake is a sensitivity, taken if finite |
| Clients.Client.ServeRead | src/proto_unix.c:219-274 | one read in place in the request buffer |
| Clients.ClientList.AddClient | src/client.c:38-79 | the new client is the head, and LEDs follow the automatic policy |
| Clients.ClientList.RemoveClient | src/client.c:81-107 | exactly that node is unlinked, the others keep their order, and LEDs follow the automatic policy |
| Clients.ClientList.NextClient | src/client.c:161-167 | the shared iterator moves to the next node |
| Clients.ClientList.Turn | src/proto_unix.c:204-226 | one turn of the walk: the iterator moves on in the list as it was, before the read is served and the client perhaps unlinked |
| ClientWalk.InOrder | src/proto_unix.c:204-277 | while nothing restarts the iterator the walk visits the list in order, never a freed client, and the list is the old one without the dropped clients |
| ClientWalk.VisitsOnceIff | src/proto_unix.c:204-277 | a walk that comes to its end has visited every client exactly once, in order, if and only if the iterator was not restarted before the last client |
| ClientWalk.TurnsBack | src/proto_unix.c:204-277 | what a restart before the last client does two visits later: a client is visited again, or, exactly if all clients before the restarting one and the one after it were dropped, the client just freed |
| Requests.GetReturnsLatest | src/proto_unix.c:292-632 | over any run each get returns the value of the latest accepted set, restore or reset of the settings it asks for; rejected requests change nothing |
| RequestEffects.SetsClientSens | src/proto_unix.c:315-325 | a finite number becomes the sensitivity of the client, any other is refused |
| RequestEffects.GetsClientSens | src/proto_unix.c:326-331 | it is answered in slot 0 |
| RequestEffects.SetsEventMask | src/proto_unix.c:332-336 | slot 0 becomes the event mask |
| RequestEffects.GetsEventMask | src/proto_unix.c:337-341 | it is answered in slot 0 |
| RequestEffects.AnswersDevice | src/proto_unix.c:342-394 | name, path, axes, buttons, USB id and type of the client's device, or -1 |
| RequestEffects.SetsSens | src/proto_unix.c:395-405 | a finite number becomes the sensitivity, any other is refused |
| RequestEffects.GetsSens | src/proto_unix.c:406-410 | it is answered in slot 0 |
| RequestEffects.SetsAxisSens | src/proto_unix.c:411-426 | six finite numbers become the factors of x, y, z, rx, ry, rz, or all are refused |
| RequestEffects.GetsAxisSens | src/proto_unix.c:427-434 | they are answered in that order |
| RequestEffects.SetsDeadzone | src/proto_unix.c:435-444 | the dead zone of device axis slot 0 becomes slot 1; another axis is refused |
| RequestEffects.GetsDeadzone | src/proto_unix.c:445-454 | it is answered in slot 1 |
| RequestEffects.SetsInvert | src/proto_unix.c:455-461 | each axis is inverted unless its slot is 0 |
| RequestEffects.GetsInvert | src/proto_unix.c:462-466 | answered as 0 or 1 in the same order |
| RequestEffects.SetsAxisMap | src/proto_unix.c:467-477 | device axis slot 0 goes to output axis slot 1, or to none for -1; anything else is refused |
| RequestEffects.GetsAxisMap | src/proto_unix.c:478-488 | it is answered in slot 1 |
| RequestEffects.SetsBnMap | src/proto_unix.c:489-499 | device button slot 0 sends number slot 1; anything out of range is refused |
| RequestEffects.GetsBnMap | src/proto_unix.c:500-509 | it is answered in slot 1 |
| RequestEffects.SetsBnAction | src/proto_unix.c:510-520 | device button slot 0 gets action slot 1; anything out of range is refused |
| RequestEffects.GetsBnAction | src/proto_unix.c:521-530 | it is answered in slot 1 |
| RequestEffects.SetsKeyMap | src/proto_unix.c:531-551 | device button slot 0 gets the key of slot 1 with its name, or none; a key without a name is refused |
| RequestEffects.GetsKeyMap | src/proto_unix.c:552-572 | its first key, or 0, is answered in slot 1 |
| RequestEffects.SetsSwapYz | src/proto_unix.c:573-577 | on unless slot 0 is 0 |
| RequestEffects.GetsSwapYz | src/proto_unix.c:578-582 | answered in slot 0 |
| RequestEffects.SetsLed | src/proto_unix.c:583-592 | 0, 1 or 2; anything else is refused |
| RequestEffects.GetsLed | src/proto_unix.c:593-597 | answered in slot 0 |
| RequestEffects.SetsGrab | src/proto_unix.c:598-602 | on unless slot 0 is 0 |
| RequestEffects.GetsGrab | src/proto_unix.c:603-607 | answered in slot 0 |
| RequestEffects.TakesText | src/proto_unix.c:303-314 | name, serial device and socket path change with the last packet of a string; nothing is answered |
| RequestEffects.SendsText | src/proto_unix.c:620-623 | serial device and socket path are sent as strings |
| RequestEffects.SetsRepeat | src/proto_unix.c:624-628 | slot 0 becomes the repeat interval |
| RequestEffects.GetsRepeat | src/proto_unix.c:629-633 | answered in slot 0 |
| RequestEffects.FileRequests | src/proto_unix.c:650-668 | saving answers the result; restoring takes the file, or the defaults without one; resetting takes the defaults |
| RequestEffects.UnknownRefused | src/proto_unix.c:670-673 | any other number is refused |
| RequestEffects.SetThenGet | src/proto_unix.c:395-633 | over every run a get answers the value the latest accepted set of that setting and index has sent, whatever came between, unless the whole configuration was replaced |
| Requests.RangesKept | src/proto_unix.c:467-591 | button maps, actions, axis maps and the LED setting stay in range over every request |
| Requests.RunRangesKept | src/proto_unix.c:467-591 | they stay in range at every point of every run that starts in range |
| Requests.TextArrives | src/proto_unix.c:608-644 | a text setting sent in full ends up as that string cut to its field, over any earlier transfer, and changes nothing else |
| Leds.Devices.SetDevicesLed | src/dev.c:360-367 | every LED is switched and nothing else changes |
| Leds.ReconfiguredShows | src/spnavd.c:487-519 | a configuration change brings LEDs that agreed with the old setting in line with the new one |
| Rounds.RequestRestarts | src/spnavd.c:487-519 | exactly which requests restart the shared iterator: LEDs made automatic while a device is open; a changed serial path, by its own request, a restore or a reset, if the old device goes or a new one is tried |
| Daemon.Daemon.CfgChanged | src/spnavd.c:487-519 | the devices, their ids and the shared iterator after a change of LED setting or serial device, LEDs as the policy says, and prev_cfg equal to cfg |
| Daemon.Daemon.Accept | src/client.c:71-76 | accepting keeps every LED as the policy says |
| Daemon.Daemon.Disconnect | src/client.c:81-107 | disconnecting keeps every LED as the policy says |
| Daemon.Daemon.ServeTurn | src/proto_unix.c:205-276 | one client of the round: its read, the request the read completes, and the walk's step: a drop, a restart by the request, or neither |
| Daemon.Daemon.HandleUevents | src/proto_unix.c:179-280 | a whole round: an accepted client goes to the head; each visit serves its read and handles the request it completes on the settings the visit before left; who is visited and which list is left is what the walk makes of the drops and restarts; a finished round visited every client once if and only if nothing restarted it before the last client; without a restart and with enough visits the round finishes, and the list left is the visited one without the dropped clients; every LED agrees with the policy, also after restarts |
| Daemon.Daemon.Reload | src/spnavd.c:441-448 | rereading the file on SIGHUP keeps every LED as the policy says |
| Daemon.Daemon.OpenUsb | src/dev_usb_linux.c:224-244 | a newly opened device is lit as the policy says, and announced, which resets the iterator |
| Daemon.Daemon.RemoveDevice | src/dev.c:262-298 | removing a device keeps the others and their LEDs, and is announced, which resets the iterator |
| Daemon.Daemon.HandleRequest | src/proto_unix.c:292-676 | every request has exactly the effect and reply of the protocol table; devices, ids and the shared iterator are those of the change of settings; every LED agrees with the policy |

## Left out

- System calls: sockets, `select`, termios, evdev ioctls, file locks and daemonising. Reads are arbitrary byte chunks, writes are appended outputs, and the clock is an input.
- X11 and keyboard backends: key names are a map given from outside, and emulated keys are outputs; the model is of a daemon built with X11, and one without refuses the keyboard requests.
- Memory exhaustion: allocation succeeds.
- Event queue: the C code reads the clock up to three times in one input step; the model reads it once a step.
- Event queue: the list of device events is a map from devices to records, so the list order and node reuse are not captured.
- Event queue: removal of a device in the middle of its own read ends that device's run; the flush that follows in `src/spnavd.c:473-475` is a new run.
- Event queue: button and axis indices are taken below 64 as the drivers deliver them.
- Numbers on the wire: machines that are not little-endian are not covered.
- Floating point: scaling is exact on reals and truncated; overflow, NaN and rounding of products are not modelled. In requests floats are their bit patterns.
- Sending events to clients (`send_uevent` and event masks) is left out as a mostly fixed lookup.
- Dead zones and sensitivities in the file: `strtod` is modelled on decimal fractions, not on exponents, hex, inf or nan; `%.3f` rounds ties up.
- CfgTheorems.LastSaveWins: assumes at most 64 distinct device ids in table and configuration together, as the C code overruns its array beyond that (`OverflowIff`), and lines that fit the 512-byte buffer.
- CfgHistories.LastSaveWinsMixed: assumes that reading the last file does not overrun the device list, and lines that fit the 512-byte buffer; histories start from an empty table or a file that is `Orderly`; files that spell an option in another way, give it twice, or have lines of kbmap_use_x11 or of the deprecated dead-zone names are not covered.
- CfgRead.ReadCfg: what the C code writes beyond the 64th device id is not modelled, only that it does.
- CfgTheorems.ReloadIs: assumes lines that fit the 512-byte buffer and strings without line breaks, since `fgets` cuts longer ones.
- Config table: it grows without limit, while the C array has a fixed number of spare lines.
- Config: key codes of kbmap and device names are not part of the saved configuration; `kbmap_use_x11` is never written by a save.
- SerialDevice.Sball.ParsePacket: an empty line is seen as packet id 0 without data; the C code passes length -1 there.
- SerialDevice.Sball.ProcInput: bytes the C move would read beyond the buffer are not copied, as they are never part of the kept tail.
- Serial device opening and identification are left out.
- Daemon.Daemon.HandleUevents: the round ends where the code would go on with a client it has freed, or with the given script of visits; the effect of a freed node is not modelled. That a round ends at all is not claimed, as restarts can keep it going.
- Clients.Client.ServeRead: a version-0 message that arrives in part is completed with the bytes the message buffer held before, which are given from outside.
- Daemon.Daemon.HandleRequest: the result of reading and writing the configuration file is given from outside; `CfgTheorems` treats it.
- Requests.GetReturnsLatest: a run is seen from one client; other clients' requests would appear in it as further exchanges on the shared settings.
- USB discovery, device tables, button remap tables, hotplug, platform stubs, command line, logging, pid file and init scripts.
