/** The timelapse capture loop: the `TimelapseState` record, the 5-minute
    boundary test, the handoff of the live stills directory, the three
    consolidation stages (stills to a 5-minute clip, 5-minute clips to an
    hourly clip, hourly clips to a daily clip), the capture of one still,
    and one tick of the main loop that strings them together.

    Each state-changing operation is a method whose postcondition ties the
    new state to a function of the old one: the disk (`...Disk`), the
    record's fields (`...Fields`) and the programs it started (`...Log`).
    What the loop promises is then proved about those functions. */
module Timelapse {
  import opened Clock
  import opened Layout
  import opened Os

  const StillsDir := "/home/pi/timelapse/bucket_stills"
  const StillsTempDir := "/home/pi/timelapse/bucket_stills_temp"
  const FiveMinDir := "/home/pi/timelapse/bucket_5min"
  const HourDir := "/home/pi/timelapse/bucket_hour"
  const DailyDir := "/home/pi/timelapse/bucket_day"

  /** The five directory names are different: they differ right after
      the shared "/home/pi/timelapse/bucket_" prefix, or in length. */
  lemma DirNamesDistinct()
    ensures StillsDir != StillsTempDir && StillsDir != FiveMinDir && StillsDir != HourDir && StillsDir != DailyDir
    ensures StillsTempDir != FiveMinDir && StillsTempDir != HourDir && StillsTempDir != DailyDir
    ensures FiveMinDir != HourDir && FiveMinDir != DailyDir && HourDir != DailyDir
  {
    assert |StillsDir| != |StillsTempDir|;
    assert StillsDir[26] == StillsTempDir[26] == 's' && FiveMinDir[26] == '5';
    assert HourDir[26] == 'h' && DailyDir[26] == 'd';
  }

  /** The point at which the program panics. */
  datatype Panic = RenameFailed | MkdirFailed | EncodeFailed | MergeFailed | RemoveFailed | CaptureFailed

  datatype Outcome = Pass | Fail(panic: Panic)

  /** The disk after an operation, or None when the operation panicked. */
  function AfterRun(r: Outcome, d: Disk): Option<Disk> {
    if r.Pass? then Some(d) else None
  }

  /** The exit status each external program reports during one tick. */
  datatype Exits = Exits(encode: bool, mergeHour: bool, mergeDay: bool, capture: bool)

  /** The fields of a `TimelapseState`, as one value. */
  datatype Fields = Fields(
    headFromState: Time,
    ledSupported: bool,
    stillMaxNumber: nat,
    dirStills: string,
    contentsStills: seq<string>,
    dirStillsTemp: string,
    dir5min: string,
    contents5mins: seq<string>,
    dirHour: string,
    contentsHours: seq<string>,
    dirDaily: string)

  /** The five directories are different paths. */
  predicate DistinctDirs(v: Fields) {
    && v.dirStills != v.dirStillsTemp && v.dirStills != v.dir5min
    && v.dirStills != v.dirHour && v.dirStills != v.dirDaily
    && v.dirStillsTemp != v.dir5min && v.dirStillsTemp != v.dirHour
    && v.dirStillsTemp != v.dirDaily && v.dir5min != v.dirHour
    && v.dir5min != v.dirDaily && v.dirHour != v.dirDaily
  }

  // ---------------------------------------------------------------------
  // Argument vectors of the external programs

  /** `gpio -g write 16 <bit>`: bit "0" turns the LED on, "1" turns it off. */
  function LedArgv(on: bool): seq<string> {
    ["gpio", "-g", "write", "16", if on then "0" else "1"]
  }

  /** The LED state a `gpio` argument vector sets, read back from its bit. */
  function LedState(argv: seq<string>): Option<bool> {
    if |argv| == 5 && argv[4] == "0" then Some(true)
    else if |argv| == 5 && argv[4] == "1" then Some(false)
    else None
  }

  /** The bit written for a state is the bit that reads back as that
      state: "0" means on. */
  lemma LedRoundTrip(on: bool)
    ensures LedState(LedArgv(on)) == Some(on)
    ensures LedArgv(on)[4] == "0" <==> on
  {
  }

  /** `raspistill` taking one 1280x960 still into `output`. */
  function StillArgv(output: string): seq<string> {
    ["raspistill", "-t", "1000", "-w", "1280", "-h", "960", "-o", output]
  }

  /** `gst-launch-1.0` encoding the numbered stills of `stillsDir` into the
      clip `output`. */
  function EncodeArgv(stillsDir: string, output: string): seq<string> {
    ["gst-launch-1.0", "multifilesrc", "location=" + stillsDir + "/%d.jpg", "index=1",
     "caps=image/jpeg,framerate=24/1", "!", "jpegdec", "!", "omxh264enc",
     "!", "avimux", "!", "filesink", "location=" + output]
  }

  /** The `-i <file>` pairs of an `avimerge` command, in input order. */
  function InputArgs(files: seq<string>): seq<string> {
    if files == [] then [] else InputArgs(files[..|files| - 1]) + ["-i", files[|files| - 1]]
  }

  /** Each input file takes two arguments: "-i", then the file. */
  lemma {:induction false} InputArgsSpec(files: seq<string>)
    ensures |InputArgs(files)| == 2 * |files|
    ensures forall i :: 0 <= i < |files| ==> InputArgs(files)[2 * i] == "-i" && InputArgs(files)[2 * i + 1] == files[i]
  {
    if files != [] {
      InputArgsSpec(files[..|files| - 1]);
    }
  }

  /** `avimerge -o <output> -i <file> ...`. */
  function MergeArgv(files: seq<string>, output: string): seq<string> {
    ["avimerge", "-o", output] + InputArgs(files)
  }

  /** The input files an `avimerge` argument vector names, in order. */
  function MergeInputs(argv: seq<string>): seq<string>
    requires |argv| >= 3
  {
    seq((|argv| - 3) / 2, i requires 0 <= i < (|argv| - 3) / 2 => argv[3 + 2 * i + 1])
  }

  /** An `avimerge` command has 3 + 2n arguments, names its output third
      and its inputs back in the order given. */
  lemma MergeArgvRoundTrip(files: seq<string>, output: string)
    ensures |MergeArgv(files, output)| == 3 + 2 * |files|
    ensures MergeArgv(files, output)[..3] == ["avimerge", "-o", output]
    ensures MergeInputs(MergeArgv(files, output)) == files
  {
    InputArgsSpec(files);
    var argv := MergeArgv(files, output);
    var inputs := MergeInputs(argv);
    assert |inputs| == |files|;
    forall i | 0 <= i < |files|
      ensures inputs[i] == files[i]
    {
      assert argv[3 + 2 * i + 1] == InputArgs(files)[2 * i + 1];
    }
  }

  // ---------------------------------------------------------------------
  // Paths

  /** Path of a still: the counter printed by `strconv.Itoa`, then ".jpg". */
  function StillPath(dir: string, n: nat): string {
    Join(dir, Itoa(n) + ".jpg")
  }

  /** Right after a handoff the first still is "0.jpg". */
  lemma FirstStillName()
    ensures Itoa(0) + ".jpg" == "0.jpg"
  {
    assert Itoa(0) == [DigitChar(0)];
    assert DigitChar(0) == '0';
  }

  /** Path of the 5-minute clip of the bucket labelled `headFromState`. */
  function FiveMinPath(v: Fields): string {
    Join(v.dir5min, FiveMinClipName(v.headFromState))
  }

  /** Path of the hourly clip of the hour of `headFromState`. */
  function HourPath(v: Fields): string {
    Join(v.dirHour, HourClipName(v.headFromState))
  }

  /** Path of the daily clip of the date of `headFromState`. */
  function DayPath(v: Fields): string {
    Join(v.dirDaily, DayClipName(v.headFromState))
  }

  /** Every clip and still path lies directly in the directory it names. */
  lemma PathsSplit(v: Fields, n: nat)
    ensures SplitPath(FiveMinPath(v)) == (v.dir5min, FiveMinClipName(v.headFromState))
    ensures SplitPath(HourPath(v)) == (v.dirHour, HourClipName(v.headFromState))
    ensures SplitPath(DayPath(v)) == (v.dirDaily, DayClipName(v.headFromState))
    ensures SplitPath(StillPath(v.dirStills, n)) == (v.dirStills, Itoa(n) + ".jpg")
  {
    NamesHaveNoSlash(v.headFromState, n);
    SplitJoin(v.dir5min, FiveMinClipName(v.headFromState));
    SplitJoin(v.dirHour, HourClipName(v.headFromState));
    SplitJoin(v.dirDaily, DayClipName(v.headFromState));
    SplitJoin(v.dirStills, Itoa(n) + ".jpg");
  }

  /** The paths of the entries of `dir`, in listing order. */
  function Paths(dir: string, files: seq<FileInfo>): seq<string> {
    if files == [] then [] else Paths(dir, files[..|files| - 1]) + [Join(dir, files[|files| - 1].name)]
  }

  /** Entry by entry, the paths are the directory joined with each name. */
  lemma {:induction false} PathsSpec(dir: string, files: seq<FileInfo>)
    ensures |Paths(dir, files)| == |files|
    ensures forall i :: 0 <= i < |files| ==> Paths(dir, files)[i] == Join(dir, files[i].name)
  {
    if files != [] {
      PathsSpec(dir, files[..|files| - 1]);
    }
  }

  // ---------------------------------------------------------------------
  // Startup recovery

  /** The label the restore loop settles on while scanning the stills: the
      first one whose floored modification time is not Go's zero time is
      kept; Zero if there is none. */
  function ScanHead(files: seq<FileInfo>): Time {
    if files == [] then Zero
    else
      var h := ScanHead(files[..|files| - 1]);
      if IsZero(h) then Floor5(files[|files| - 1].modTime) else h
  }

  /** The scan ends on Zero only when every still's label is Zero, and
      otherwise on the label of the first still whose label is not. */
  lemma {:induction false} ScanHeadFirst(files: seq<FileInfo>)
    ensures IsZero(ScanHead(files)) <==> forall i :: 0 <= i < |files| ==> IsZero(Floor5(files[i].modTime))
    ensures !IsZero(ScanHead(files)) ==>
      exists k :: 0 <= k < |files| && ScanHead(files) == Floor5(files[k].modTime)
        && forall i :: 0 <= i < k ==> IsZero(Floor5(files[i].modTime))
  {
    if files != [] {
      var init := files[..|files| - 1];
      ScanHeadFirst(init);
      assert forall i :: 0 <= i < |init| ==> init[i] == files[i];
      if IsZero(ScanHead(init)) {
        var k := |files| - 1;
        assert ScanHead(files) == Floor5(files[k].modTime);
      } else {
        var k :| 0 <= k < |init| && ScanHead(init) == Floor5(init[k].modTime)
          && forall i :: 0 <= i < k ==> IsZero(Floor5(init[i].modTime));
        assert ScanHead(files) == Floor5(files[k].modTime);
      }
    }
  }

  /** `headFromState` after startup: the scanned label, or the label of the
      current time when the scan found none. */
  function RestoredHead(stills: seq<FileInfo>, now: Time): Time {
    var h := ScanHead(stills);
    if IsZero(h) then Floor5(now) else h
  }

  /** After startup the head is the label of the first still when there is
      one (and its label is not Go's zero time), the label of the current
      time when there are no stills, and a bucket label in every case. */
  lemma RestoredHeadSpec(stills: seq<FileInfo>, now: Time)
    ensures Floored(RestoredHead(stills, now))
    ensures stills == [] ==> RestoredHead(stills, now) == Floor5(now)
    ensures |stills| > 0 && !IsZero(Floor5(stills[0].modTime)) ==>
      RestoredHead(stills, now) == Floor5(stills[0].modTime)
  {
    ScanHeadFirst(stills);
  }

  /** The disk after `makeDirIfNotExists`. */
  function WithDir(d: Disk, dir: string): (r: Disk)
    ensures r.Keys == d.Keys + {dir}
  {
    if dir in d then d else d[dir := []]
  }

  /** Making sure a directory exists keeps every directory as it was and
      adds the missing one empty. */
  lemma WithDirSpec(d: Disk, dir: string)
    ensures forall p :: p in d ==> WithDir(d, dir)[p] == d[p]
    ensures dir !in d ==> WithDir(d, dir)[dir] == []
  {
  }

  /** `makeDirIfNotExists`: creates the directory when `os.Stat` finds it
      missing; with only "exists" errors modelled, `os.Mkdir` cannot fail
      then. */
  method MakeDirIfNotExists(host: Host, dir: string)
    modifies host
    ensures host.dirs == WithDir(old(host.dirs), dir)
    ensures host.invoked == old(host.invoked)
  {
    if dir !in host.dirs {
      var _ := host.Mkdir(dir);
    }
  }

  // ---------------------------------------------------------------------
  // Boundary detection

  datatype Boundaries = Boundaries(differentDay: bool, differentHour: bool, different5Min: bool)

  /** The three flags of one tick, comparing the tick's label with
      `headFromState`. The day test compares only the day of the month,
      and the hour test only the hour of the day. */
  function Crossed(current: Time, head: Time): (b: Boundaries)
    ensures b.differentDay ==> b.differentHour
    ensures b.differentHour ==> b.different5Min
    ensures b.different5Min <==> current != head
  {
    var differentDay := current.day != head.day;
    var differentHour := differentDay || current.hour != head.hour;
    Boundaries(differentDay, differentHour, !Equal(current, head))
  }

  /** With a bucket label as head, a tick crosses a 5-minute boundary
      exactly when its time lies outside the head's five minutes. */
  lemma CrossedIffOutsideBucket(now: Time, head: Time)
    requires Floored(head)
    ensures Crossed(Floor5(now), head).different5Min <==>
      !(SameHour(now, head) && head.minute <= now.minute < head.minute + 5)
  {
    if SameHour(now, head) && head.minute <= now.minute < head.minute + 5 {
      Floor5Unique(now, head);
    }
  }

  /** The day test looks at the day of the month only: a head and a tick
      a month apart on the same day and hour cross only a 5-minute
      boundary. */
  lemma CrossedIgnoresMonth(current: Time, head: Time)
    requires current.month != head.month && current.day == head.day && current.hour == head.hour
    ensures Crossed(current, head) == Boundaries(false, false, true)
  {
  }

  // ---------------------------------------------------------------------
  // What each operation does to the disk

  /** `stillsTo5minBootstrap`'s rename of the live directory to the temp
      name and the new empty live directory; None when either step fails. */
  function HandoffDisk(d: Disk, live: string, temp: string): Option<Disk> {
    if !RenameOk(d, live, temp) then None
    else
      var renamed := Renamed(d, live, temp);
      // The rename has just freed `live`; with only "exists" errors
      // modelled, this `os.Mkdir` never fails.
      if live in renamed then None else Some(renamed[live := []])
  }

  /** The handoff succeeds exactly when the live directory exists and the
      temp name is free; a leftover temp directory, even an empty one, makes
      the rename fail.
      Then the temp directory holds what the live one held, the live one is
      empty, and no other directory changes. */
  lemma HandoffDiskSpec(d: Disk, live: string, temp: string)
    ensures var r := HandoffDisk(d, live, temp);
      && (r.Some? <==> live in d && temp !in d)
      && (r.Some? ==> r.value.Keys == d.Keys + {temp})
      && (r.Some? ==> r.value[temp] == d[live] && r.value[live] == [])
      && (r.Some? ==> forall p :: p in d && p != live && p != temp ==> r.value[p] == d[p])
  {
  }

  /** Stage A on disk: the encoder writes the 5-minute clip, then the temp
      directory is removed. */
  function EncodeDisk(d: Disk, v: Fields, exitOk: bool, t: Time): Option<Disk> {
    if exitOk && SplitPath(FiveMinPath(v)).0 in d
    then Some(Created(d, FiveMinPath(v), t) - {v.dirStillsTemp})
    else None
  }

  /** `mergeVideosInternal` on disk: `avimerge` writes the output, then
      every input is deleted in order. */
  function MergeDisk(d: Disk, files: seq<string>, output: string, exitOk: bool, t: Time): Option<Disk> {
    if exitOk && SplitPath(output).0 in d then RemovedAll(Created(d, output, t), files) else None
  }

  /** A merge succeeds exactly when the merger succeeds, every input exists
      (the output counts) and no input is listed twice; afterwards none of
      the inputs exists. */
  lemma MergeDiskSpec(d: Disk, files: seq<string>, output: string, exitOk: bool, t: Time)
    ensures var c := Created(d, output, t);
      MergeDisk(d, files, output, exitOk, t).Some? <==>
        && exitOk && SplitPath(output).0 in d
        && (forall i :: 0 <= i < |files| ==> Exists(c, files[i]))
        && (forall i, j :: 0 <= i < j < |files| ==> SplitPath(files[i]) != SplitPath(files[j]))
    ensures MergeDisk(d, files, output, exitOk, t).Some? ==>
      forall i :: 0 <= i < |files| ==> !Exists(MergeDisk(d, files, output, exitOk, t).value, files[i])
  {
    var c := Created(d, output, t);
    RemovedAllSucceeds(c, files);
    if MergeDisk(d, files, output, exitOk, t).Some? {
      RemovedAllEffect(c, files);
    }
  }

  /** A merge whose input list names one file twice panics while deleting,
      whatever the disk holds. */
  lemma MergeWithDuplicateFails(d: Disk, files: seq<string>, output: string, exitOk: bool, t: Time, i: nat, j: nat)
    requires i < j < |files| && files[i] == files[j]
    ensures MergeDisk(d, files, output, exitOk, t) == None
  {
    RemovedAllSucceeds(Created(d, output, t), files);
  }

  /** `takeStill` on disk: `raspistill` writes still number `n`. */
  function CaptureDisk(d: Disk, dir: string, n: nat, exitOk: bool, t: Time): Option<Disk> {
    var p := StillPath(dir, n);
    if exitOk && SplitPath(p).0 in d then Some(Created(d, p, t)) else None
  }

  /** The consolidation task on disk: stage A, then stage B when the hour
      changed, then stage C when the day changed. */
  function PipelineDisk(d: Disk, v: Fields, b: Boundaries, exits: Exits, t: Time): Option<Disk> {
    var d1 :- EncodeDisk(d, v, exits.encode, t);
    var d2 :- if b.differentHour
              then MergeDisk(d1, v.contents5mins + [FiveMinPath(v)], HourPath(v), exits.mergeHour, t)
              else Some(d1);
    if b.differentDay then MergeDisk(d2, PendingHours(v, b), DayPath(v), exits.mergeDay, t) else Some(d2)
  }

  /** The `if different5Min` block on disk: on a 5-minute boundary the
      handoff, then the consolidation task; otherwise nothing. */
  function RollOverDisk(d: Disk, v: Fields, b: Boundaries, exits: Exits, t: Time): Option<Disk> {
    if b.different5Min then
      var d1 :- HandoffDisk(d, v.dirStills, v.dirStillsTemp);
      PipelineDisk(d1, HandedOff(v), b, exits, t)
    else
      Some(d)
  }

  /** One tick on disk; None when the tick panics. */
  function TickDisk(d: Disk, v: Fields, now: Time, exits: Exits): Option<Disk> {
    var b := Crossed(Floor5(now), v.headFromState);
    var w := RollOverFields(v, b);
    var d1 :- RollOverDisk(d, v, b, exits, now);
    CaptureDisk(d1, w.dirStills, w.stillMaxNumber, exits.capture, now)
  }

  /** What a panic in stage A leaves behind: the stills the live
      directory of `d` held are all in the temp directory of `d'`. */
  predicate StillsKeptInTemp(d: Disk, d': Disk, v: Fields) {
    v.dirStills in d && v.dirStillsTemp in d' && d'[v.dirStillsTemp] == d[v.dirStills]
  }

  /** The disk `d'` a tick from `d` leaves behind when it panics with `p`,
      where that is determined: a failed rename leaves the disk as it was, a
      failed encode leaves the handoff's disk, with the stills kept in the
      temp directory, and a failed capture leaves the rollover's disk. */
  predicate TickLeftBehind(p: Panic, d: Disk, v: Fields, now: Time, exits: Exits, d': Disk) {
    match p
    case RenameFailed => d' == d
    case EncodeFailed => Some(d') == HandoffDisk(d, v.dirStills, v.dirStillsTemp) && StillsKeptInTemp(d, d', v)
    case CaptureFailed => Some(d') == RollOverDisk(d, v, Crossed(Floor5(now), v.headFromState), exits, now)
    case _ => true
  }

  // ---------------------------------------------------------------------
  // What each operation does to the record

  /** Fields after `stillsTo5minBootstrap`: still counter and still list
      reset. */
  function HandedOff(v: Fields): Fields {
    v.(stillMaxNumber := 0, contentsStills := [])
  }

  /** The pending hourly clips once stage B has run (if it runs). */
  function PendingHours(v: Fields, b: Boundaries): seq<string> {
    if b.differentHour then v.contentsHours + [HourPath(v)] else v.contentsHours
  }

  /** Fields after a consolidation task that succeeds. */
  function PipelineFields(v: Fields, b: Boundaries): Fields {
    v.(contents5mins := if b.differentHour then [] else v.contents5mins + [FiveMinPath(v)],
       contentsHours := if b.differentDay then [] else PendingHours(v, b))
  }

  /** Fields after the `if different5Min` block, when it succeeds. */
  function RollOverFields(v: Fields, b: Boundaries): Fields {
    if b.different5Min then PipelineFields(HandedOff(v), b) else v
  }

  /** Fields after a tick that succeeds. */
  function TickFields(v: Fields, now: Time): Fields {
    var w := RollOverFields(v, Crossed(Floor5(now), v.headFromState));
    w.(stillMaxNumber := w.stillMaxNumber + 1, headFromState := Floor5(now))
  }

  // ---------------------------------------------------------------------
  // Which programs each operation starts

  /** `takeStill`: LED on, `raspistill`, LED off once the capture
      succeeded (the LED commands only when the LED is supported). */
  function CaptureLog(led: bool, output: string, ok: bool): seq<seq<string>> {
    (if led then [LedArgv(true)] else []) + [StillArgv(output)] + (if led && ok then [LedArgv(false)] else [])
  }

  /** A consolidation task that succeeds: encoder, then the hourly merge,
      then the daily merge. */
  function PipelineLog(v: Fields, b: Boundaries): seq<seq<string>> {
    [EncodeArgv(v.dirStillsTemp, FiveMinPath(v))]
    + (if b.differentHour then [MergeArgv(v.contents5mins + [FiveMinPath(v)], HourPath(v))] else [])
    + (if b.differentDay then [MergeArgv(PendingHours(v, b), DayPath(v))] else [])
  }

  /** The `if different5Min` block, when it succeeds. */
  function RollOverLog(v: Fields, b: Boundaries): seq<seq<string>> {
    if b.different5Min then PipelineLog(HandedOff(v), b) else []
  }

  /** A tick that succeeds. */
  function TickLog(v: Fields, now: Time): seq<seq<string>> {
    var b := Crossed(Floor5(now), v.headFromState);
    var w := RollOverFields(v, b);
    RollOverLog(v, b) + CaptureLog(w.ledSupported, StillPath(w.dirStills, w.stillMaxNumber), true)
  }

  lemma AppendAssociative<T>(a: seq<T>, b: seq<T>, c: seq<T>)
    ensures (a + b) + c == a + (b + c)
  {
  }

  /** How many of the started programs are `program`. */
  function Runs(log: seq<seq<string>>, program: string): nat {
    if log == [] then 0
    else Runs(log[..|log| - 1], program) + (if |log[|log| - 1]| > 0 && log[|log| - 1][0] == program then 1 else 0)
  }

  lemma {:induction false} RunsAppend(a: seq<seq<string>>, b: seq<seq<string>>, program: string)
    ensures Runs(a + b, program) == Runs(a, program) + Runs(b, program)
  {
    if b != [] {
      assert (a + b)[..|a + b| - 1] == a + b[..|b| - 1];
      RunsAppend(a, b[..|b| - 1], program);
    } else {
      assert a + b == a;
    }
  }

  // ---------------------------------------------------------------------
  // What one tick promises

  /** A tick that succeeds moves the head to the tick's label, restarts the
      still counter exactly when it crosses a 5-minute boundary and
      otherwise advances it by one, and leaves the pending lists alone when
      it crosses none. */
  lemma TickFieldsSpec(v: Fields, now: Time)
    ensures var w := TickFields(v, now);
      var crossed := Floor5(now) != v.headFromState;
      && w.headFromState == Floor5(now)
      && w.stillMaxNumber == (if crossed then 1 else v.stillMaxNumber + 1)
      && w.contentsStills == (if crossed then [] else v.contentsStills)
      && (!crossed ==> w.contents5mins == v.contents5mins && w.contentsHours == v.contentsHours)
      && w.(headFromState := v.headFromState, stillMaxNumber := v.stillMaxNumber, contentsStills := v.contentsStills,
            contents5mins := v.contents5mins, contentsHours := v.contentsHours) == v
  {
  }

  /** The stage lists after a tick: a 5-minute boundary appends the new
      5-minute clip, an hour boundary merges them all into one hourly clip
      and empties the list, a day boundary merges the hourly clips and
      empties theirs. */
  lemma TickPendingLists(v: Fields, now: Time)
    ensures var b := Crossed(Floor5(now), v.headFromState);
      var w := TickFields(v, now);
      && (b.different5Min && !b.differentHour ==> w.contents5mins == v.contents5mins + [FiveMinPath(v)])
      && (b.differentHour ==> w.contents5mins == [])
      && (b.differentHour && !b.differentDay ==> w.contentsHours == v.contentsHours + [HourPath(v)])
      && (b.differentDay ==> w.contentsHours == [])
  {
  }

  lemma RunsOne(argv: seq<string>, program: string)
    ensures Runs([argv], program) == if |argv| > 0 && argv[0] == program then 1 else 0
  {
    assert [argv][..0] == [];
  }

  /** A capture starts `raspistill` once, and `gpio` twice (LED on, then
      off) when the LED is supported and the capture succeeds, once when it
      fails. */
  lemma CaptureLogRuns(led: bool, output: string, ok: bool, program: string)
    ensures Runs(CaptureLog(led, output, ok), program) ==
      (if program == "raspistill" then 1 else 0)
      + (if program == "gpio" && led then (if ok then 2 else 1) else 0)
  {
    var ledOn: seq<seq<string>> := if led then [LedArgv(true)] else [];
    var still := [StillArgv(output)];
    var ledOff: seq<seq<string>> := if led && ok then [LedArgv(false)] else [];
    RunsAppend(ledOn + still, ledOff, program);
    RunsAppend(ledOn, still, program);
    RunsOne(StillArgv(output), program);
    RunsOne(LedArgv(true), program);
    RunsOne(LedArgv(false), program);
  }

  /** A consolidation task starts the encoder once and the merger once per
      merge stage it runs. */
  lemma PipelineLogRuns(v: Fields, b: Boundaries, program: string)
    ensures Runs(PipelineLog(v, b), program) ==
      (if program == "gst-launch-1.0" then 1 else 0)
      + (if program == "avimerge" then (if b.differentHour then 1 else 0) + (if b.differentDay then 1 else 0) else 0)
  {
    var encode := EncodeArgv(v.dirStillsTemp, FiveMinPath(v));
    var hourMerge := MergeArgv(v.contents5mins + [FiveMinPath(v)], HourPath(v));
    var dayMerge := MergeArgv(PendingHours(v, b), DayPath(v));
    var hour: seq<seq<string>> := if b.differentHour then [hourMerge] else [];
    var day: seq<seq<string>> := if b.differentDay then [dayMerge] else [];
    RunsAppend([encode] + hour, day, program);
    RunsAppend([encode], hour, program);
    RunsOne(encode, program);
    RunsOne(hourMerge, program);
    RunsOne(dayMerge, program);
  }

  /** How often a tick starts each program. */
  lemma TickLogRuns(v: Fields, now: Time, program: string)
    ensures var crossed := Floor5(now) != v.headFromState;
      Runs(TickLog(v, now), program) ==
        (if crossed then Runs(PipelineLog(v, Crossed(Floor5(now), v.headFromState)), program) else 0)
        + Runs(CaptureLog(v.ledSupported, StillPath(v.dirStills, if crossed then 0 else v.stillMaxNumber), true), program)
  {
    var b := Crossed(Floor5(now), v.headFromState);
    var pre := if b.different5Min then PipelineLog(HandedOff(v), b) else [];
    var cap := CaptureLog(v.ledSupported, StillPath(v.dirStills, if b.different5Min then 0 else v.stillMaxNumber), true);
    RunsAppend(pre, cap, program);
    assert PipelineLog(HandedOff(v), b) == PipelineLog(v, b);
  }

  /** Exactly one still is captured per tick, whatever boundaries the tick
      crosses, into the live directory under the number the counter held
      (0 right after a handoff). */
  lemma TickCapturesOnce(v: Fields, now: Time)
    ensures Runs(TickLog(v, now), "raspistill") == 1
    ensures var n := if Floor5(now) != v.headFromState then 0 else v.stillMaxNumber;
      StillArgv(StillPath(v.dirStills, n)) in TickLog(v, now)
  {
    var b := Crossed(Floor5(now), v.headFromState);
    var n := if b.different5Min then 0 else v.stillMaxNumber;
    TickLogRuns(v, now, "raspistill");
    CaptureLogRuns(v.ledSupported, StillPath(v.dirStills, n), true, "raspistill");
    PipelineLogRuns(v, b, "raspistill");
    var pre := if b.different5Min then PipelineLog(HandedOff(v), b) else [];
    var cap := CaptureLog(v.ledSupported, StillPath(v.dirStills, n), true);
    assert TickLog(v, now) == pre + cap;
    assert cap[if v.ledSupported then 1 else 0] == StillArgv(StillPath(v.dirStills, n));
  }

  /** The encoder runs in a tick exactly when the tick's label differs from
      the head, and the merger once per hour boundary and once more per day
      boundary. */
  lemma TickConsolidatesOnBoundary(v: Fields, now: Time)
    ensures var b := Crossed(Floor5(now), v.headFromState);
      && Runs(TickLog(v, now), "gst-launch-1.0") == (if Floor5(now) != v.headFromState then 1 else 0)
      && Runs(TickLog(v, now), "avimerge") == (if b.differentHour then 1 else 0) + (if b.differentDay then 1 else 0)
  {
    var b := Crossed(Floor5(now), v.headFromState);
    var n := if b.different5Min then 0 else v.stillMaxNumber;
    TickLogRuns(v, now, "gst-launch-1.0");
    TickLogRuns(v, now, "avimerge");
    CaptureLogRuns(v.ledSupported, StillPath(v.dirStills, n), true, "gst-launch-1.0");
    CaptureLogRuns(v.ledSupported, StillPath(v.dirStills, n), true, "avimerge");
    PipelineLogRuns(v, b, "gst-launch-1.0");
    PipelineLogRuns(v, b, "avimerge");
  }

  /** On a day boundary the stages run in order, each one's output feeding
      the next: the encoder writes the 5-minute clip, the hourly merge takes
      the pending 5-minute clips with that clip last, and the daily merge
      takes the pending hourly clips with the new hourly clip last. */
  lemma TickStageOrder(v: Fields, now: Time)
    requires Crossed(Floor5(now), v.headFromState).differentDay
    ensures var log := TickLog(v, now);
      && |log| >= 4
      && log[0] == EncodeArgv(v.dirStillsTemp, FiveMinPath(v))
      && |log[1]| >= 3 && log[1][..3] == ["avimerge", "-o", HourPath(v)]
      && MergeInputs(log[1]) == v.contents5mins + [FiveMinPath(v)]
      && |log[2]| >= 3 && log[2][..3] == ["avimerge", "-o", DayPath(v)]
      && MergeInputs(log[2]) == v.contentsHours + [HourPath(v)]
  {
    MergeArgvRoundTrip(v.contents5mins + [FiveMinPath(v)], HourPath(v));
    MergeArgvRoundTrip(v.contentsHours + [HourPath(v)], DayPath(v));
  }

  /** Every pending clip lies directly in the directory of its stage. */
  predicate PendingInDirs(v: Fields) {
    && (forall p :: p in v.contents5mins ==> SplitPath(p).0 == v.dir5min)
    && (forall p :: p in v.contentsHours ==> SplitPath(p).0 == v.dirHour)
  }

  /** A tick only ever appends clips of the right directory. */
  lemma TickKeepsPendingInDirs(v: Fields, now: Time)
    requires PendingInDirs(v)
    ensures PendingInDirs(TickFields(v, now))
  {
    PathsSplit(v, 0);
  }

  /** Stage A leaves its 5-minute clip on disk, where stage B reads it as
      its last input. */
  lemma StageAOutputExists(d: Disk, v: Fields, exitOk: bool, t: Time)
    requires DistinctDirs(v) && EncodeDisk(d, v, exitOk, t).Some?
    ensures Exists(EncodeDisk(d, v, exitOk, t).value, FiveMinPath(v))
  {
    PathsSplit(v, 0);
    CreatedSpec(d, FiveMinPath(v), t);
  }

  /** Stage B leaves its hourly clip on disk, where stage C reads it as its
      last input: B deletes only 5-minute clips, which lie elsewhere. */
  lemma StageBOutputExists(d: Disk, v: Fields, exitOk: bool, t: Time)
    requires DistinctDirs(v) && PendingInDirs(v)
    requires MergeDisk(d, v.contents5mins + [FiveMinPath(v)], HourPath(v), exitOk, t).Some?
    ensures Exists(MergeDisk(d, v.contents5mins + [FiveMinPath(v)], HourPath(v), exitOk, t).value, HourPath(v))
  {
    var files := v.contents5mins + [FiveMinPath(v)];
    PathsSplit(v, 0);
    CreatedSpec(d, HourPath(v), t);
    RemovedAllEffect(Created(d, HourPath(v), t), files);
    forall i | 0 <= i < |files|
      ensures SplitPath(HourPath(v)) != SplitPath(files[i])
    {
      if i < |v.contents5mins| {
        assert files[i] in v.contents5mins;
      }
    }
  }

  /** A tick at 10:05:02 with the head at 10:00 crosses a 5-minute
      boundary only: the stills are handed off and encoded into the clip
      "2024-01-01_10-00.avi", which joins the pending 5-minute list, the
      capture writes still 0, and the head moves to 10:05. */
  lemma FiveMinuteBoundaryScenario(v: Fields)
    requires v.headFromState == Time(2024, 1, 1, 10, 0, 0, 0)
    ensures var now := Time(2024, 1, 1, 10, 5, 2, 0);
      var clip := v.dir5min + "/2024-01-01_10-00.avi";
      && Crossed(Floor5(now), v.headFromState) == Boundaries(false, false, true)
      && TickFields(v, now) == v.(headFromState := Time(2024, 1, 1, 10, 5, 0, 0), stillMaxNumber := 1,
                                  contentsStills := [], contents5mins := v.contents5mins + [clip])
      && TickLog(v, now) == [EncodeArgv(v.dirStillsTemp, clip)] + CaptureLog(v.ledSupported, v.dirStills + "/0.jpg", true)
  {
    var now := Time(2024, 1, 1, 10, 5, 2, 0);
    var clip := v.dir5min + "/2024-01-01_10-00.avi";
    var b := Crossed(Floor5(now), v.headFromState);
    assert Floor5(now) == Time(2024, 1, 1, 10, 5, 0, 0);
    assert b == Boundaries(false, false, true);
    FiveMinClipNameExample();
    assert FiveMinPath(v) == clip;
    FirstStillName();
    assert StillPath(v.dirStills, 0) == v.dirStills + "/0.jpg";
    var w := RollOverFields(v, b);
    assert w == v.(stillMaxNumber := 0, contentsStills := [], contents5mins := v.contents5mins + [clip]);
    assert RollOverLog(v, b) == [EncodeArgv(v.dirStillsTemp, clip)];
  }

  // ---------------------------------------------------------------------
  // What one tick does to the live stills directory

  /** A merge leaves an empty directory empty, unless it is where the
      merged clip goes, and keeps every directory. */
  lemma MergeKeepsEmptyDir(d: Disk, files: seq<string>, output: string, exitOk: bool, t: Time, dir: string)
    requires MergeDisk(d, files, output, exitOk, t).Some?
    requires dir in d && d[dir] == [] && dir != SplitPath(output).0
    ensures var r := MergeDisk(d, files, output, exitOk, t).value;
      r.Keys == d.Keys && dir in r && r[dir] == []
  {
    var c := Created(d, output, t);
    RemovedAllKeepsEmptyDir(c, files, dir);
    RemovedAllEffect(c, files);
  }

  /** The consolidation task never writes into the live directory: if it
      is empty before, it is empty after, and the temp directory is gone. */
  lemma PipelineKeepsLiveEmpty(d: Disk, v: Fields, b: Boundaries, exits: Exits, t: Time)
    requires DistinctDirs(v)
    requires v.dirStills in d && d[v.dirStills] == []
    requires PipelineDisk(d, v, b, exits, t).Some?
    ensures var r := PipelineDisk(d, v, b, exits, t).value;
      && r.Keys == d.Keys - {v.dirStillsTemp}
      && v.dirStills in r && r[v.dirStills] == []
  {
    PathsSplit(v, 0);
    var d1 := EncodeDisk(d, v, exits.encode, t).value;
    assert d1.Keys == d.Keys - {v.dirStillsTemp} && d1[v.dirStills] == [];
    var d2 := d1;
    if b.differentHour {
      MergeKeepsEmptyDir(d1, v.contents5mins + [FiveMinPath(v)], HourPath(v), exits.mergeHour, t, v.dirStills);
      d2 := MergeDisk(d1, v.contents5mins + [FiveMinPath(v)], HourPath(v), exits.mergeHour, t).value;
    }
    if b.differentDay {
      MergeKeepsEmptyDir(d2, PendingHours(v, b), DayPath(v), exits.mergeDay, t, v.dirStills);
    }
  }

  /** A handoff followed by the consolidation task leaves the live
      directory empty and the temp directory gone. */
  lemma RollOverEmptiesLiveDir(d: Disk, v: Fields, b: Boundaries, exits: Exits, t: Time)
    requires DistinctDirs(v) && b.different5Min
    requires RollOverDisk(d, v, b, exits, t).Some?
    ensures var r := RollOverDisk(d, v, b, exits, t).value;
      && v.dirStills in d && v.dirStills in r && r[v.dirStills] == []
      && r.Keys == d.Keys - {v.dirStillsTemp}
  {
    var d1 := HandoffDisk(d, v.dirStills, v.dirStillsTemp).value;
    HandoffDiskSpec(d, v.dirStills, v.dirStillsTemp);
    PipelineKeepsLiveEmpty(d1, HandedOff(v), b, exits, t);
  }

  /** After a tick that succeeds, the live directory holds just still 0
      when the tick crossed a 5-minute boundary, and the temp directory is
      gone; otherwise the new still joins the stills already there. */
  lemma TickLiveDir(d: Disk, v: Fields, now: Time, exits: Exits)
    requires DistinctDirs(v)
    requires TickDisk(d, v, now, exits).Some?
    ensures var d' := TickDisk(d, v, now, exits).value;
      && v.dirStills in d && v.dirStills in d'
      && (Floor5(now) != v.headFromState ==>
            d'[v.dirStills] == [FileInfo("0.jpg", now)] && d'.Keys == d.Keys - {v.dirStillsTemp})
      && (Floor5(now) == v.headFromState ==>
            d'[v.dirStills] == Put(d[v.dirStills], FileInfo(Itoa(v.stillMaxNumber) + ".jpg", now)))
  {
    var b := Crossed(Floor5(now), v.headFromState);
    if b.different5Min {
      RollOverEmptiesLiveDir(d, v, b, exits, now);
      assert RollOverFields(v, b).stillMaxNumber == 0;
      PathsSplit(v, 0);
      FirstStillName();
    } else {
      PathsSplit(v, v.stillMaxNumber);
    }
  }

  /** The still names numbered below `n`. */
  function StillNames(n: nat): set<string> {
    set i | 0 <= i < n :: Itoa(i) + ".jpg"
  }

  lemma StillNamesNext(n: nat)
    ensures StillNames(n + 1) == StillNames(n) + {Itoa(n) + ".jpg"}
  {
    forall x | x in StillNames(n + 1)
      ensures x in StillNames(n) + {Itoa(n) + ".jpg"}
    {
      var i :| 0 <= i < n + 1 && x == Itoa(i) + ".jpg";
      if i < n {
        assert x in StillNames(n);
      }
    }
    forall x | x in StillNames(n)
      ensures x in StillNames(n + 1)
    {
      var i :| 0 <= i < n && x == Itoa(i) + ".jpg";
      assert 0 <= i < n + 1;
    }
    assert Itoa(n) + ".jpg" in StillNames(n + 1);
  }

  /** The live directory holds exactly the stills numbered below the still
      counter. */
  predicate StillsConsistent(d: Disk, v: Fields) {
    v.dirStills in d && NameSet(d[v.dirStills]) == StillNames(v.stillMaxNumber)
  }

  /** While the live directory is in step with the counter, the next still
      gets a name no file there has, so the capture overwrites nothing. */
  lemma NextStillIsFresh(d: Disk, v: Fields)
    requires StillsConsistent(d, v)
    ensures Itoa(v.stillMaxNumber) + ".jpg" !in NameSet(d[v.dirStills])
  {
    var n := v.stillMaxNumber;
    forall i | 0 <= i < n
      ensures Itoa(i) + ".jpg" != Itoa(n) + ".jpg"
    {
      ItoaInjective(i, n);
      var x, y := Itoa(i) + ".jpg", Itoa(n) + ".jpg";
      assert x[..|x| - 4] == Itoa(i);
      assert y[..|y| - 4] == Itoa(n);
    }
  }

  /** A tick that succeeds keeps the live directory in step with the still
      counter: the next still always gets a number not yet on disk. */
  lemma TickKeepsStillsConsistent(d: Disk, v: Fields, now: Time, exits: Exits)
    requires DistinctDirs(v) && StillsConsistent(d, v)
    requires TickDisk(d, v, now, exits).Some?
    ensures StillsConsistent(TickDisk(d, v, now, exits).value, TickFields(v, now))
  {
    TickLiveDir(d, v, now, exits);
    var d' := TickDisk(d, v, now, exits).value;
    var w := TickFields(v, now);
    TickFieldsSpec(v, now);
    if Floor5(now) != v.headFromState {
      assert NameSet([FileInfo("0.jpg", now)]) == {"0.jpg"} by {
        NameSetCons(FileInfo("0.jpg", now), []);
      }
      FirstStillName();
      assert StillNames(1) == {"0.jpg"};
    } else {
      StillNamesNext(v.stillMaxNumber);
      PutSpec(d[v.dirStills], FileInfo(Itoa(v.stillMaxNumber) + ".jpg", now));
    }
  }

  /** A tick that succeeds keeps the record well formed: the directories
      stay distinct and the head stays a bucket label. */
  lemma TickKeepsLabels(v: Fields, now: Time)
    requires DistinctDirs(v)
    ensures DistinctDirs(TickFields(v, now)) && Floored(TickFields(v, now).headFromState)
  {
  }

  // ---------------------------------------------------------------------
  // Startup

  /** The disk once `restoreState` has made sure the live, 5-minute,
      hourly and daily directories exist (the temp directory is left to the
      handoff). */
  function PreparedDisk(d: Disk): (r: Disk)
    ensures StillsDir in r && FiveMinDir in r && HourDir in r && DailyDir in r
  {
    WithDir(WithDir(WithDir(WithDir(d, StillsDir), FiveMinDir), HourDir), DailyDir)
  }

  /** Startup adds exactly the live, 5-minute, hourly and daily
      directories; the temp directory is neither made nor removed. */
  lemma PreparedDiskKeys(d: Disk)
    ensures PreparedDisk(d).Keys == d.Keys + {StillsDir, FiveMinDir, HourDir, DailyDir}
    ensures StillsTempDir in PreparedDisk(d) <==> StillsTempDir in d
  {
    DirNamesDistinct();
  }

  /** Startup keeps the files of every directory already there, and the
      directories it adds are empty. */
  lemma PreparedDiskEntries(d: Disk)
    ensures var r := PreparedDisk(d);
      && (forall p :: p in d ==> r[p] == d[p])
      && (forall p :: p in r && p !in d ==> r[p] == [])
  {
    var d1 := WithDir(d, StillsDir);
    var d2 := WithDir(d1, FiveMinDir);
    var d3 := WithDir(d2, HourDir);
    WithDirSpec(d, StillsDir);
    WithDirSpec(d1, FiveMinDir);
    WithDirSpec(d2, HourDir);
    WithDirSpec(d3, DailyDir);
  }

  /** The record `restoreState` returns, read from the prepared disk. */
  function RestoredFields(d: Disk, now: Time): Fields
    requires StillsDir in d && FiveMinDir in d && HourDir in d
  {
    Fields(RestoredHead(d[StillsDir], now), true, |d[StillsDir]|, StillsDir, Paths(StillsDir, d[StillsDir]),
           StillsTempDir, FiveMinDir, Paths(FiveMinDir, d[FiveMinDir]), HourDir, Paths(HourDir, d[HourDir]), DailyDir)
  }

  /** After startup the still counter is the number of stills on disk, each
      pending list names its directory's files in listing order, the head is
      the label of the first still (or of the current time), and the record
      is well formed. */
  lemma RestoredFieldsSpec(d: Disk, now: Time)
    ensures var p := PreparedDisk(d);
      var v := RestoredFields(p, now);
      && DistinctDirs(v) && Floored(v.headFromState) && v.ledSupported
      && v.stillMaxNumber == |p[StillsDir]| && |v.contentsStills| == |p[StillsDir]|
      && |v.contents5mins| == |p[FiveMinDir]| && |v.contentsHours| == |p[HourDir]|
      && (forall i :: 0 <= i < |p[StillsDir]| ==> v.contentsStills[i] == StillsDir + "/" + p[StillsDir][i].name)
      && (forall i :: 0 <= i < |p[FiveMinDir]| ==> v.contents5mins[i] == FiveMinDir + "/" + p[FiveMinDir][i].name)
      && (forall i :: 0 <= i < |p[HourDir]| ==> v.contentsHours[i] == HourDir + "/" + p[HourDir][i].name)
      && (StillsDir !in d || d[StillsDir] == [] ==> v.headFromState == Floor5(now))
  {
    var p := PreparedDisk(d);
    DirNamesDistinct();
    RestoredHeadSpec(p[StillsDir], now);
    PathsSpec(StillsDir, p[StillsDir]);
    PathsSpec(FiveMinDir, p[FiveMinDir]);
    PathsSpec(HourDir, p[HourDir]);
  }

  /** A fresh start on a disk without stills is consistent: no stills and a
      zero counter. */
  lemma RestoredStillsConsistent(d: Disk, now: Time)
    requires StillsDir !in d || d[StillsDir] == []
    ensures StillsConsistent(PreparedDisk(d), RestoredFields(PreparedDisk(d), now))
  {
    assert StillNames(0) == {};
  }

  /** The pending lists `restoreState` reads name clips of the 5-minute
      and hourly directories. */
  lemma RestoredPendingInDirs(d: Disk, now: Time)
    requires FiveMinDir in d ==> NoSlashNames(d[FiveMinDir])
    requires HourDir in d ==> NoSlashNames(d[HourDir])
    ensures PendingInDirs(RestoredFields(PreparedDisk(d), now))
  {
    var p := PreparedDisk(d);
    var v := RestoredFields(p, now);
    PreparedDiskEntries(d);
    RestoredFieldsSpec(d, now);
    forall q | q in v.contents5mins
      ensures SplitPath(q).0 == v.dir5min
    {
      var i :| 0 <= i < |v.contents5mins| && v.contents5mins[i] == q;
      SplitJoin(FiveMinDir, p[FiveMinDir][i].name);
    }
    forall q | q in v.contentsHours
      ensures SplitPath(q).0 == v.dirHour
    {
      var i :| 0 <= i < |v.contentsHours| && v.contentsHours[i] == q;
      SplitJoin(HourDir, p[HourDir][i].name);
    }
  }

  // ---------------------------------------------------------------------
  // The operations

  /** `mergeVideosInternal`: runs `avimerge` over `files` into `outFile`,
      then deletes every input in order. It panics when the merger fails,
      before deleting anything, and when an input cannot be deleted. */
  method MergeVideosInternal(host: Host, files: seq<string>, outFile: string, exitOk: bool, now: Time)
    returns (r: Outcome)
    modifies host
    ensures host.invoked == old(host.invoked) + [MergeArgv(files, outFile)]
    ensures AfterRun(r, host.dirs) == MergeDisk(old(host.dirs), files, outFile, exitOk, now)
    ensures r == Fail(MergeFailed) <==> !(exitOk && SplitPath(outFile).0 in old(host.dirs))
    ensures r == Fail(MergeFailed) ==> host.dirs == old(host.dirs)
    ensures r.Fail? ==> r.panic in {MergeFailed, RemoveFailed}
  {
    var args := ["avimerge", "-o", outFile];
    for i := 0 to |files|
      invariant args == ["avimerge", "-o", outFile] + InputArgs(files[..i])
    {
      assert files[..i + 1][..i] == files[..i];
      args := args + ["-i", files[i]];
    }
    assert files[..|files|] == files;
    var ok := host.Run(args, exitOk, outFile, now);
    if !ok {
      return Fail(MergeFailed);
    }
    ghost var merged := host.dirs;
    for i := 0 to |files|
      invariant host.invoked == old(host.invoked) + [MergeArgv(files, outFile)]
      invariant RemovedAll(host.dirs, files[i..]) == RemovedAll(merged, files)
    {
      assert files[i..][1..] == files[i + 1..];
      ok := host.Remove(files[i]);
      if !ok {
        return Fail(RemoveFailed);
      }
    }
    r := Pass;
  }

  /** The four `makeDirIfNotExists` calls of `restoreState`. */
  method PrepareDirs(host: Host)
    modifies host
    ensures host.dirs == PreparedDisk(old(host.dirs))
    ensures host.invoked == old(host.invoked)
  {
    DirNamesDistinct();
    MakeDirIfNotExists(host, StillsDir);
    MakeDirIfNotExists(host, FiveMinDir);
    MakeDirIfNotExists(host, HourDir);
    MakeDirIfNotExists(host, DailyDir);
  }

  /** The "read stills" loop of `restoreState`, starting from Go's zero
      time, a zero counter and an empty list: every still joins the list and
      advances the counter, and the first one whose label is not Go's zero
      time sets the head. */
  method ReadStills(dir: string, files: seq<FileInfo>) returns (head: Time, count: nat, paths: seq<string>)
    ensures head == ScanHead(files) && count == |files| && paths == Paths(dir, files)
  {
    head, count, paths := Zero, 0, [];
    for i := 0 to |files|
      invariant head == ScanHead(files[..i]) && count == i && paths == Paths(dir, files[..i])
    {
      assert files[..i + 1][..i] == files[..i];
      if IsZero(head) {
        head := Floor5(files[i].modTime);
      }
      paths := paths + [Join(dir, files[i].name)];
      count := count + 1;
    }
    assert files[..|files|] == files;
  }

  /** The "read 5mins" and "read hours" loops of `restoreState`: the path
      of every entry of `dir`, in listing order. */
  method ListPaths(dir: string, files: seq<FileInfo>) returns (paths: seq<string>)
    ensures paths == Paths(dir, files)
  {
    paths := [];
    for i := 0 to |files|
      invariant paths == Paths(dir, files[..i])
    {
      assert files[..i + 1][..i] == files[..i];
      paths := paths + [Join(dir, files[i].name)];
    }
    assert files[..|files|] == files;
  }

  /** `restoreState`: makes sure the directories exist, then rebuilds the
      record from what is on disk; `now` is the time at startup. */
  method RestoreState(host: Host, now: Time) returns (state: TimelapseState)
    modifies host
    ensures fresh(state)
    ensures host.dirs == PreparedDisk(old(host.dirs))
    ensures host.invoked == old(host.invoked)
    ensures state.View() == RestoredFields(host.dirs, now)
  {
    PrepareDirs(host);
    var head, stillMaxNumber, contentsStills := ReadStills(StillsDir, host.dirs[StillsDir]);
    var contents5mins := ListPaths(FiveMinDir, host.dirs[FiveMinDir]);
    var contentsHours := ListPaths(HourDir, host.dirs[HourDir]);
    if IsZero(head) {
      head := Floor5(now);
    }
    state := new TimelapseState(Fields(head, true, stillMaxNumber, StillsDir, contentsStills, StillsTempDir,
                                       FiveMinDir, contents5mins, HourDir, contentsHours, DailyDir));
  }

  /** The capture loop's record (`TimelapseState`). */
  class TimelapseState {
    var headFromState: Time
    var ledSupported: bool
    var stillMaxNumber: nat
    var dirStills: string
    var contentsStills: seq<string>
    var dirStillsTemp: string
    var dir5min: string
    var contents5mins: seq<string>
    var dirHour: string
    var contentsHours: seq<string>
    var dirDaily: string

    function View(): Fields
      reads this
    {
      Fields(headFromState, ledSupported, stillMaxNumber, dirStills, contentsStills, dirStillsTemp,
             dir5min, contents5mins, dirHour, contentsHours, dirDaily)
    }

    /** A record holding the given field values. */
    constructor (v: Fields)
      ensures View() == v
    {
      headFromState := v.headFromState;
      ledSupported := v.ledSupported;
      stillMaxNumber := v.stillMaxNumber;
      dirStills := v.dirStills;
      contentsStills := v.contentsStills;
      dirStillsTemp := v.dirStillsTemp;
      dir5min := v.dir5min;
      contents5mins := v.contents5mins;
      dirHour := v.dirHour;
      contentsHours := v.contentsHours;
      dirDaily := v.dirDaily;
    }

    /** `setRaspberryPowerLed`: starts `gpio` writing bit "0" for on and
        "1" for off, and nothing when the LED is not supported. */
    method SetRaspberryPowerLed(host: Host, on: bool)
      modifies host
      ensures host.invoked == old(host.invoked) + (if ledSupported then [LedArgv(on)] else [])
      ensures host.dirs == old(host.dirs)
    {
      if !ledSupported {
        return;
      }
      var bitStatus := "0";
      if !on {
        bitStatus := "1";
      }
      host.Start(["gpio", "-g", "write", "16", bitStatus]);
    }

    /** `stillsTo5minBootstrap`: renames the live directory to the temp
        name, makes a new empty live directory and restarts the still
        counter. */
    method StillsTo5minBootstrap(host: Host) returns (r: Outcome)
      modifies this, host
      ensures host.invoked == old(host.invoked)
      ensures AfterRun(r, host.dirs) == HandoffDisk(old(host.dirs), old(dirStills), old(dirStillsTemp))
      ensures View() == if r.Pass? then HandedOff(old(View())) else old(View())
      ensures r.Fail? ==> r.panic in {RenameFailed, MkdirFailed}
      ensures r == Fail(RenameFailed) ==> host.dirs == old(host.dirs)
      ensures r == Fail(MkdirFailed) ==>
        RenameOk(old(host.dirs), old(dirStills), old(dirStillsTemp)) &&
        host.dirs == Renamed(old(host.dirs), old(dirStills), old(dirStillsTemp))
    {
      var ok := host.Rename(dirStills, dirStillsTemp);
      if !ok {
        return Fail(RenameFailed);
      }
      ok := host.Mkdir(dirStills);
      if !ok {
        // Not taken in the model: the rename has just freed the name.
        return Fail(MkdirFailed);
      }
      stillMaxNumber := 0;
      contentsStills := [];
      r := Pass;
    }

    /** `stillsTo5min` (stage A): records the 5-minute clip as pending
        (before the encoder runs), encodes the handed-off stills into it and
        removes the temp directory. */
    method StillsTo5min(host: Host, exitOk: bool, now: Time) returns (r: Outcome)
      modifies this, host
      ensures View() == old(View()).(contents5mins := old(contents5mins) + [FiveMinPath(old(View()))])
      ensures host.invoked == old(host.invoked) + [EncodeArgv(old(dirStillsTemp), FiveMinPath(old(View())))]
      ensures AfterRun(r, host.dirs) == EncodeDisk(old(host.dirs), old(View()), exitOk, now)
      ensures r.Fail? ==> r == Fail(EncodeFailed) && host.dirs == old(host.dirs)
    {
      var outFile := Join(dir5min, FiveMinClipName(headFromState));
      contents5mins := contents5mins + [outFile];
      var ok := host.Run(EncodeArgv(dirStillsTemp, outFile), exitOk, outFile, now);
      if !ok {
        return Fail(EncodeFailed);
      }
      host.RemoveAll(dirStillsTemp);
      r := Pass;
    }

    /** `fiveMinsToHour` (stage B): merges the pending 5-minute clips into
        the hourly clip and moves that clip to the pending hourly list. */
    method FiveMinsToHour(host: Host, exitOk: bool, now: Time) returns (r: Outcome)
      modifies this, host
      ensures host.invoked == old(host.invoked) + [MergeArgv(old(contents5mins), HourPath(old(View())))]
      ensures AfterRun(r, host.dirs) == MergeDisk(old(host.dirs), old(contents5mins), HourPath(old(View())), exitOk, now)
      ensures View() == if r.Fail? then old(View())
        else old(View()).(contents5mins := [], contentsHours := old(contentsHours) + [HourPath(old(View()))])
      ensures r.Fail? ==> r.panic in {MergeFailed, RemoveFailed}
      ensures r == Fail(MergeFailed) ==> host.dirs == old(host.dirs)
    {
      var hourVideoMerged := Join(dirHour, HourClipName(headFromState));
      r := MergeVideosInternal(host, contents5mins, hourVideoMerged, exitOk, now);
      if r.Fail? {
        return;
      }
      contents5mins := [];
      contentsHours := contentsHours + [hourVideoMerged];
    }

    /** `hoursToDay` (stage C): merges the pending hourly clips into the
        daily clip and clears the pending hourly list. */
    method HoursToDay(host: Host, exitOk: bool, now: Time) returns (r: Outcome)
      modifies this, host
      ensures host.invoked == old(host.invoked) + [MergeArgv(old(contentsHours), DayPath(old(View())))]
      ensures AfterRun(r, host.dirs) == MergeDisk(old(host.dirs), old(contentsHours), DayPath(old(View())), exitOk, now)
      ensures View() == if r.Fail? then old(View()) else old(View()).(contentsHours := [])
      ensures r.Fail? ==> r.panic in {MergeFailed, RemoveFailed}
      ensures r == Fail(MergeFailed) ==> host.dirs == old(host.dirs)
    {
      var dayVideoMerged := Join(dirDaily, DayClipName(headFromState));
      r := MergeVideosInternal(host, contentsHours, dayVideoMerged, exitOk, now);
      if r.Fail? {
        return;
      }
      contentsHours := [];
    }

    /** `takeStill`: takes the next still number (the counter advances even
        when the capture then fails), lights the LED, captures, and turns
        the LED off once the capture succeeded. */
    method TakeStill(host: Host, exitOk: bool, now: Time) returns (r: Outcome)
      modifies this, host
      ensures View() == old(View()).(stillMaxNumber := old(stillMaxNumber) + 1)
      ensures host.invoked == old(host.invoked) + CaptureLog(ledSupported, StillPath(dirStills, old(stillMaxNumber)), r.Pass?)
      ensures AfterRun(r, host.dirs) == CaptureDisk(old(host.dirs), dirStills, old(stillMaxNumber), exitOk, now)
      ensures r.Fail? ==> r == Fail(CaptureFailed) && host.dirs == old(host.dirs)
    {
      var stillNumber := stillMaxNumber;
      stillMaxNumber := stillMaxNumber + 1;
      var output := StillPath(dirStills, stillNumber);
      SetRaspberryPowerLed(host, true);
      var ok := host.Run(StillArgv(output), exitOk, output, now);
      if !ok {
        return Fail(CaptureFailed);
      }
      SetRaspberryPowerLed(host, false);
      r := Pass;
    }

    /** The task `main` starts on a 5-minute boundary: stage A, then stage
        B on an hour boundary, then stage C on a day boundary, each run only
        once the previous one succeeded. */
    method RunRestConcurrently(host: Host, b: Boundaries, exits: Exits, now: Time) returns (r: Outcome)
      modifies this, host
      ensures AfterRun(r, host.dirs) == PipelineDisk(old(host.dirs), old(View()), b, exits, now)
      ensures r.Pass? ==> View() == PipelineFields(old(View()), b)
      ensures r.Pass? ==> host.invoked == old(host.invoked) + PipelineLog(old(View()), b)
      ensures r.Fail? ==> r.panic in {EncodeFailed, MergeFailed, RemoveFailed}
      ensures r == Fail(EncodeFailed) ==> host.dirs == old(host.dirs)
    {
      ghost var v := View();
      ghost var d := host.dirs;
      ghost var log := host.invoked;
      r := StillsTo5min(host, exits.encode, now);
      if r.Fail? {
        return;
      }
      ghost var d1 := host.dirs;
      assert EncodeDisk(d, v, exits.encode, now) == Some(d1);
      ghost var enc := [EncodeArgv(v.dirStillsTemp, FiveMinPath(v))];
      ghost var hour: seq<seq<string>> := [];
      if b.differentHour {
        r := FiveMinsToHour(host, exits.mergeHour, now);
        if r.Fail? {
          assert MergeDisk(d1, v.contents5mins + [FiveMinPath(v)], HourPath(v), exits.mergeHour, now).None?;
          return;
        }
        hour := [MergeArgv(v.contents5mins + [FiveMinPath(v)], HourPath(v))];
      }
      AppendAssociative(log, enc, hour);
      ghost var d2 := host.dirs;
      assert (if b.differentHour
              then MergeDisk(d1, v.contents5mins + [FiveMinPath(v)], HourPath(v), exits.mergeHour, now)
              else Some(d1)) == Some(d2);
      assert contentsHours == PendingHours(v, b);
      ghost var day: seq<seq<string>> := [];
      if b.differentDay {
        r := HoursToDay(host, exits.mergeDay, now);
        day := [MergeArgv(PendingHours(v, b), DayPath(v))];
      }
      AppendAssociative(log, enc + hour, day);
      assert PipelineLog(v, b) == enc + hour + day;
    }

    /** The `if different5Min` block of `main`'s loop: on a 5-minute
        boundary the handoff, then the consolidation task. */
    method RollOver(host: Host, b: Boundaries, exits: Exits, now: Time) returns (r: Outcome)
      modifies this, host
      ensures AfterRun(r, host.dirs) == RollOverDisk(old(host.dirs), old(View()), b, exits, now)
      ensures r.Pass? ==> View() == RollOverFields(old(View()), b)
      ensures r.Pass? ==> host.invoked == old(host.invoked) + RollOverLog(old(View()), b)
      ensures r.Fail? ==> b.different5Min && r.panic != CaptureFailed
      ensures r == Fail(RenameFailed) ==> host.dirs == old(host.dirs)
      ensures r == Fail(EncodeFailed) ==> Some(host.dirs) == HandoffDisk(old(host.dirs), old(dirStills), old(dirStillsTemp))
      ensures r == Fail(EncodeFailed) ==> StillsKeptInTemp(old(host.dirs), host.dirs, old(View()))
    {
      r := Pass;
      if b.different5Min {
        ghost var v, d := View(), host.dirs;
        r := StillsTo5minBootstrap(host);
        if r.Fail? {
          return;
        }
        assert HandoffDisk(d, v.dirStills, v.dirStillsTemp) == Some(host.dirs);
        HandoffDiskSpec(d, v.dirStills, v.dirStillsTemp);
        r := RunRestConcurrently(host, b, exits, now);
      }
    }

    /** One pass of `main`'s loop at time `now`: on a new 5-minute label the
        stills are handed off and consolidated, then one still is taken and
        the head moves to the new label. */
    method Tick(host: Host, now: Time, exits: Exits) returns (r: Outcome)
      modifies this, host
      ensures AfterRun(r, host.dirs) == TickDisk(old(host.dirs), old(View()), now, exits)
      ensures r.Pass? ==> View() == TickFields(old(View()), now)
      ensures r.Pass? ==> host.invoked == old(host.invoked) + TickLog(old(View()), now)
      ensures r.Fail? ==> TickLeftBehind(r.panic, old(host.dirs), old(View()), now, exits, host.dirs)
    {
      ghost var v, log := View(), host.invoked;
      var nowAccordingToInternet := Floor5(now);
      var b := Crossed(nowAccordingToInternet, headFromState);
      r := RollOver(host, b, exits, now);
      if r.Fail? {
        return;
      }
      ghost var w := View();
      r := CaptureAndAdvance(host, exits.capture, now, nowAccordingToInternet);
      AppendAssociative(log, RollOverLog(v, b), CaptureLog(w.ledSupported, StillPath(w.dirStills, w.stillMaxNumber), true));
    }

    /** The rest of the loop pass: `takeStill`, then the head moves to
        `head` once the capture succeeded. */
    method CaptureAndAdvance(host: Host, exitOk: bool, now: Time, head: Time) returns (r: Outcome)
      modifies this, host
      ensures AfterRun(r, host.dirs) == CaptureDisk(old(host.dirs), old(dirStills), old(stillMaxNumber), exitOk, now)
      ensures r.Fail? ==> r == Fail(CaptureFailed) && host.dirs == old(host.dirs)
      ensures r.Pass? ==> View() == old(View()).(stillMaxNumber := old(stillMaxNumber) + 1, headFromState := head)
      ensures r.Pass? ==>
        host.invoked == old(host.invoked) + CaptureLog(old(ledSupported), StillPath(old(dirStills), old(stillMaxNumber)), true)
    {
      r := TakeStill(host, exitOk, now);
      if r.Pass? {
        headFromState := head;
      }
    }
  }
}
