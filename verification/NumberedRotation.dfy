/** The rotating file writer of the beego logger: full files are renamed to the first free dated or numbered name. */
module NumberedRotation {
  import opened Common

  datatype Date = Date(year: int, month: int, day: int)

  /** `project.log`, `project.2006-01-02.log` and `project.2006-01-02.001.log`. */
  datatype Name = Live | Dated(date: Date) | Numbered(date: Date, num: nat)

  const LAST_NUMBER := 999
  const NEWLINE: byte := 10

  function Concat(parts: seq<seq<byte>>): (all: seq<byte>) {
    if parts == [] then [] else Concat(parts[..|parts| - 1]) + parts[|parts| - 1]
  }

  lemma ConcatSnoc(parts: seq<seq<byte>>, part: seq<byte>)
    ensures Concat(parts + [part]) == Concat(parts) + part
  {
    assert (parts + [part])[..|parts|] == parts;
  }

  // ---------------------------------------------------------------- counting lines

  function Newlines(s: seq<byte>): (n: nat) {
    if s == [] then 0 else Newlines(s[..|s| - 1]) + if s[|s| - 1] == NEWLINE then 1 else 0
  }

  lemma {:induction false} NewlinesAppend(a: seq<byte>, b: seq<byte>)
    ensures Newlines(a + b) == Newlines(a) + Newlines(b)
  {
    if b == [] {
      assert a + b == a;
    } else {
      var n := |b| - 1;
      NewlinesAppend(a, b[..n]);
      assert (a + b)[..|a + b| - 1] == a + b[..n];
    }
  }

  /** Which is the number of places at which there is a byte 10. */
  lemma {:induction false} NewlinesIsCount(s: seq<byte>)
    ensures Newlines(s) == |set i | 0 <= i < |s| && s[i] == 10|
  {
    if s != [] {
      var n := |s| - 1;
      NewlinesIsCount(s[..n]);
      var before := set i | 0 <= i < |s[..n]| && s[..n][i] == 10;
      assert (set i | 0 <= i < |s| && s[i] == 10) == before + (if s[n] == 10 then {n} else {});
    }
  }

  method CountIn(buf: seq<byte>) returns (count: nat)
    ensures count == Newlines(buf)
  {
    count := 0;
    var i := 0;
    while i < |buf|
      invariant 0 <= i <= |buf| && count == Newlines(buf[..i])
    {
      assert buf[..i + 1][..i] == buf[..i];
      count := count + if buf[i] == NEWLINE then 1 else 0;
      i := i + 1;
    }
    assert buf[..i] == buf;
  }

  /** Reads the file through a buffer of 32768 bytes; `readable(i)` is how much the operating system is willing to
    * hand over at offset `i`.
    */
  method Lines(content: seq<byte>, readable: nat -> nat) returns (count: nat)
    ensures count == Newlines(content)
  {
    count := 0;
    var i := 0;
    while i < |content|
      invariant 0 <= i <= |content| && count == Newlines(content[..i])
    {
      var c := readable(i);
      c := if c < 1 then 1 else c;
      c := if c > 32768 then 32768 else c;
      c := if i + c > |content| then |content| - i else c;
      var more := CountIn(content[i..i + c]);
      NewlinesAppend(content[..i], content[i..i + c]);
      assert content[..i] + content[i..i + c] == content[..i + c];
      count := count + more;
      i := i + c;
    }
    assert content[..i] == content;
  }

  // ---------------------------------------------------------------- choosing a name

  function FirstFree(taken: set<Name>, date: Date, num: nat): (r: Option<Name>)
    decreases LAST_NUMBER + 1 - num
  {
    if num > LAST_NUMBER then None
    else if Numbered(date, num) !in taken then Some(Numbered(date, num))
    else FirstFree(taken, date, num + 1)
  }

  /** The name a full file gets: with a limit on lines or size always numbered by the day of the message, otherwise
    * dated by the day the file was opened, and numbered only if that name is taken.
    */
  function Target(taken: set<Name>, limited: bool, logTime: Date, openTime: Date): (r: Option<Name>) {
    if limited then FirstFree(taken, logTime, 1)
    else if Dated(openTime) !in taken then Some(Dated(openTime))
    else FirstFree(taken, openTime, 1)
  }

  /** The lowest free number is chosen, and none exactly when all of them are taken. */
  lemma {:induction false} FirstFreeMeans(taken: set<Name>, date: Date, num: nat)
    requires num <= LAST_NUMBER + 1
    ensures match FirstFree(taken, date, num)
            case None => forall k :: num <= k <= LAST_NUMBER ==> Numbered(date, k) in taken
            case Some(name) =>
              && name.Numbered? && name.date == date && num <= name.num <= LAST_NUMBER && name !in taken
              && forall k :: num <= k < name.num ==> Numbered(date, k) in taken
    decreases LAST_NUMBER + 1 - num
  {
    if num <= LAST_NUMBER && Numbered(date, num) in taken {
      FirstFreeMeans(taken, date, num + 1);
    }
  }

  /** `name` is the lowest number of that day not taken. */
  ghost predicate LowestFree(taken: set<Name>, date: Date, name: Name) {
    && name.Numbered? && name.date == date && 1 <= name.num <= 999 && name !in taken
    && forall k :: 1 <= k < name.num ==> Numbered(date, k) in taken
  }

  ghost predicate AllTaken(taken: set<Name>, date: Date) {
    forall k :: 1 <= k <= 999 ==> Numbered(date, k) in taken
  }

  /** With a limit on lines or size a full file gets the lowest free number of the day of the message; otherwise the
    * day on which it was opened, and the lowest free number of that day only if the bare day is taken.
    */
  lemma TargetMeans(taken: set<Name>, limited: bool, logTime: Date, openTime: Date)
    ensures var r := Target(taken, limited, logTime, openTime);
            if limited then (if r.Some? then LowestFree(taken, logTime, r.value) else AllTaken(taken, logTime))
            else if Dated(openTime) !in taken then r == Some(Dated(openTime))
            else if r.Some? then LowestFree(taken, openTime, r.value) else AllTaken(taken, openTime)
  {
    FirstFreeMeans(taken, logTime, 1);
    FirstFreeMeans(taken, openTime, 1);
  }

  // ---------------------------------------------------------------- the directory

  function Of<T>(m: map<Name, seq<T>>, name: Name): (content: seq<T>) {
    if name in m then m[name] else []
  }

  /** Everything the files of `chain` hold, oldest first. */
  function AllOf<T>(chain: seq<Name>, m: map<Name, seq<T>>): (all: seq<T>) {
    if chain == [] then [] else AllOf(chain[..|chain| - 1], m) + Of(m, chain[|chain| - 1])
  }

  lemma {:induction false} AllElsewhere<T>(chain: seq<Name>, m: map<Name, seq<T>>, m': map<Name, seq<T>>)
    requires forall i :: 0 <= i < |chain| ==> Of(m, chain[i]) == Of(m', chain[i])
    ensures AllOf(chain, m) == AllOf(chain, m')
  {
    if chain != [] {
      AllElsewhere(chain[..|chain| - 1], m, m');
    }
  }

  predicate Distinct(names: seq<Name>) {
    forall i, j :: 0 <= i < j < |names| ==> names[i] != names[j]
  }

  ghost predicate Contents(files: map<Name, seq<byte>>, held: map<Name, seq<seq<byte>>>, older: seq<Name>) {
    && Live in files && Live in held && files[Live] == Concat(held[Live])
    && forall i :: 0 <= i < |older| ==> older[i] in files && older[i] in held && files[older[i]] == Concat(held[older[i]])
  }

  /** The files found at the start are as they were, and there are no others but those written since. */
  ghost predicate Others(files: map<Name, seq<byte>>, start: map<Name, seq<byte>>, older: seq<Name>) {
    && (forall n :: n in start && n != Live ==> n in files && n !in older && files[n] == start[n])
    && (forall n :: n in files ==> n == Live || n in older || n in start)
  }

  /** `older` lists the files the live one has been renamed to since the start, oldest first; `held` says which
    * records each file holds; `start` is the directory as it was found.
    */
  ghost predicate Kept(files: map<Name, seq<byte>>, start: map<Name, seq<byte>>, older: seq<Name>,
                       held: map<Name, seq<seq<byte>>>) {
    Distinct(older) && Live !in older && Contents(files, held, older) && Others(files, start, older)
  }

  function Rotated<T>(m: map<Name, seq<T>>, name: Name): (m': map<Name, seq<T>>)
    requires Live in m
  {
    m[name := m[Live]][Live := []]
  }

  lemma RotationKeepsOrder<T>(older: seq<Name>, m: map<Name, seq<T>>, name: Name)
    requires Live in m && name != Live && name !in older && Live !in older
    ensures AllOf(older + [name, Live], Rotated(m, name)) == AllOf(older + [Live], m)
  {
    var n := |older|;
    assert (older + [Live])[..n] == older;
    AllElsewhere(older, m, Rotated(m, name));
    assert (older + [name, Live])[..n + 1] == older + [name];
    assert (older + [name])[..n] == older;
  }

  lemma RotationKeepsContents(files: map<Name, seq<byte>>, held: map<Name, seq<seq<byte>>>, older: seq<Name>, name: Name)
    requires Contents(files, held, older) && name !in older && name != Live && Live !in older
    ensures Contents(Rotated(files, name), Rotated(held, name), older + [name])
  {
    assert Concat([]) == [];
    hide Concat;
  }

  lemma RotationKeepsOthers(files: map<Name, seq<byte>>, start: map<Name, seq<byte>>, older: seq<Name>, name: Name)
    requires Others(files, start, older) && Live in files && name !in files
    ensures Others(Rotated(files, name), start, older + [name])
  {
    assert name in older + [name];
    assert forall n :: n in older ==> n in older + [name];
  }

  lemma RotationKeeps(files: map<Name, seq<byte>>, start: map<Name, seq<byte>>, older: seq<Name>,
                      held: map<Name, seq<seq<byte>>>, name: Name)
    requires Kept(files, start, older, held) && name !in files
    ensures Kept(Rotated(files, name), start, older + [name], Rotated(held, name))
    ensures AllOf(older + [name] + [Live], Rotated(held, name)) == AllOf(older + [Live], held)
  {
    hide AllOf, Contents, Others, Rotated, Distinct;
    NewName(files, held, older, name);
    RotationKeepsContents(files, held, older, name);
    RotationKeepsOrder(older, held, name);
    RotationKeepsOthers(files, start, older, name);
    StillDistinct(older, name);
    assert older + [name] + [Live] == older + [name, Live];
  }

  lemma NewName(files: map<Name, seq<byte>>, held: map<Name, seq<seq<byte>>>, older: seq<Name>, name: Name)
    requires Contents(files, held, older) && name !in files
    ensures name !in older && name != Live && Live in files && Live in held
  {
  }

  lemma StillDistinct(older: seq<Name>, name: Name)
    requires Distinct(older) && Live !in older && name !in older && name != Live
    ensures Distinct(older + [name]) && Live !in older + [name]
  {
  }

  lemma WriteKeepsOrder(older: seq<Name>, held: map<Name, seq<seq<byte>>>, line: seq<byte>)
    requires Live in held && Live !in older
    ensures AllOf(older + [Live], held[Live := held[Live] + [line]]) == AllOf(older + [Live], held) + [line]
  {
    assert (older + [Live])[..|older|] == older;
    AllElsewhere(older, held, held[Live := held[Live] + [line]]);
  }

  lemma WriteKeeps(files: map<Name, seq<byte>>, start: map<Name, seq<byte>>, older: seq<Name>,
                   held: map<Name, seq<seq<byte>>>, line: seq<byte>)
    requires Kept(files, start, older, held)
    ensures var held' := held[Live := held[Live] + [line]];
            && Kept(files[Live := files[Live] + line], start, older, held')
            && AllOf(older + [Live], held') == AllOf(older + [Live], held) + [line]
  {
    ConcatSnoc(held[Live], line);
    WriteKeepsOrder(older, held, line);
    hide Concat, AllOf;
  }

  lemma StartIsKept(start: map<Name, seq<byte>>)
    ensures var live := Of(start, Live);
            var files, held := start[Live := live], map[Live := [live]];
            Kept(files, start, [], held) && AllOf([] + [Live], held) == [live]
  {
    var live := Of(start, Live);
    ConcatSnoc([], live);
    assert [] + [live] == [live] && [] + live == live;
    assert ([] + [Live])[..0] == [];
  }

  // ---------------------------------------------------------------- the writer

  class FileLogWriter {
    const maxLines: int
    const maxSize: int
    const daily: bool
    const rotate: bool
    const maxLevel: int
    const minLevel: int
    var files: map<Name, seq<byte>>
    var maxLinesCurLines: nat
    var maxSizeCurSize: nat
    var dailyOpenTime: Date
    ghost const start: map<Name, seq<byte>>
    ghost var older: seq<Name>
    ghost var held: map<Name, seq<seq<byte>>>
    ghost var log: seq<seq<byte>>
    ghost var clean: bool

    /** `log` is what the live file held at the start followed by every line written, in order, of a failed write the
      * part that reached the file. `clean` tells that no write to the live file has failed: then the size counter is
      * the size of the file.
      */
    ghost predicate Valid()
      reads this
    {
      && Kept(files, start, older, held) && AllOf(older + [Live], held) == log
      && maxSizeCurSize <= |files[Live]| && (clean ==> maxSizeCurSize == |files[Live]|)
      && maxLinesCurLines <= Newlines(files[Live])
    }

    predicate Limited() {
      maxLines > 0 || maxSize > 0
    }

    /** Only the day of the month is compared. */
    predicate NeedRotate(day: int)
      reads this
    {
      || (maxLines > 0 && maxLinesCurLines >= maxLines)
      || (maxSize > 0 && maxSizeCurSize >= maxSize)
      || (daily && day != dailyOpenTime.day)
    }

    /** `Init` in any directory; the live file is created if it is not there. */
    constructor (found: map<Name, seq<byte>>, maxLines: int, maxSize: int, daily: bool, rotate: bool,
                 maxLevel: int, minLevel: int, now: Date, readable: nat -> nat)
      ensures Valid() && start == found && clean
      ensures files == found[Live := Of(found, Live)]
      ensures log == [files[Live]] && maxLinesCurLines == Newlines(files[Live]) && dailyOpenTime == now
      ensures this.maxLines == maxLines && this.maxSize == maxSize && this.daily == daily && this.rotate == rotate
      ensures this.maxLevel == maxLevel && this.minLevel == minLevel
    {
      this.maxLines, this.maxSize, this.daily, this.rotate := maxLines, maxSize, daily, rotate;
      this.maxLevel, this.minLevel := maxLevel, minLevel;
      files := found[Live := Of(found, Live)];
      maxLinesCurLines, maxSizeCurSize, dailyOpenTime := 0, 0, now;
      start, older, clean := found, [], true;
      held, log := map[Live := [Of(found, Live)]], [Of(found, Live)];
      new;
      hide Kept, AllOf, Concat;
      StartIsKept(found);
      InitFd(now, readable);
    }

    method InitFd(now: Date, readable: nat -> nat)
      requires Live in files
      modifies this`maxLinesCurLines, this`maxSizeCurSize, this`dailyOpenTime
      ensures maxSizeCurSize == |files[Live]| && dailyOpenTime == now && maxLinesCurLines == Newlines(files[Live])
    {
      maxSizeCurSize := |files[Live]|;
      dailyOpenTime := now;
      maxLinesCurLines := 0;
      if |files[Live]| > 0 {
        maxLinesCurLines := Lines(files[Live], readable);
      }
    }

    method FindName(date: Date) returns (r: Option<Name>)
      ensures r == FirstFree(files.Keys, date, 1)
    {
      var num := 1;
      while num <= LAST_NUMBER
        invariant 1 <= num <= LAST_NUMBER + 1 && FirstFree(files.Keys, date, 1) == FirstFree(files.Keys, date, num)
      {
        if Numbered(date, num) !in files {
          return Some(Numbered(date, num));
        }
        num := num + 1;
      }
      r := None;
    }

    /** Moves the live file to a free name and starts a new one; when every name is taken nothing changes. */
    method DoRotate(logTime: Date, now: Date, readable: nat -> nat) returns (ok: bool)
      requires Valid()
      modifies this`files, this`maxLinesCurLines, this`maxSizeCurSize, this`dailyOpenTime, this`older, this`held, this`clean
      ensures Valid()
      ensures var target := Target(old(files.Keys), Limited(), logTime, old(dailyOpenTime));
              && ok == target.Some?
              && (ok ==> && target.value !in old(files) && target.value != Live
                         && Live in old(files) && files == Rotated(old(files), target.value)
                         && dailyOpenTime == now && maxLinesCurLines == 0 && clean)
              && (!ok ==> && files == old(files) && maxSizeCurSize == old(maxSizeCurSize)
                          && dailyOpenTime == old(dailyOpenTime) && maxLinesCurLines == old(maxLinesCurLines)
                          && clean == old(clean))
    {
      hide Kept, AllOf, Concat;
      var target;
      if maxLines > 0 || maxSize > 0 {
        target := FindName(logTime);
        FirstFreeMeans(files.Keys, logTime, 1);
      } else if Dated(dailyOpenTime) !in files {
        target := Some(Dated(dailyOpenTime));
      } else {
        target := FindName(dailyOpenTime);
        FirstFreeMeans(files.Keys, dailyOpenTime, 1);
      }
      if target.None? {
        return false;
      }
      KeptLive(files, start, older, held);
      RotationKeeps(files, start, older, held, target.value);
      files := Rotated(files, target.value);
      older := older + [target.value];
      held := Rotated(held, target.value);
      InitFd(now, readable);
      assert Newlines([]) == 0;
      clean := true;
      ok := true;
    }

    /** The file a line of that time goes to a new name for, if a rotation is due and possible. */
    function RotationTarget(when: Date): (target: Option<Name>)
      reads this
    {
      if rotate && NeedRotate(when.day) then Target(files.Keys, Limited(), when, dailyOpenTime) else None
    }

    /** What a line finds in the live file: with rotation on and a name free, a file below both limits and of that
      * day, or a new one; and no file is moved away that is below the limits and of that day.
      */
    lemma RotationIsDue(when: Date)
      requires Valid()
      ensures var target := RotationTarget(when);
              && (rotate && target.None? && !AllTaken(files.Keys, if maxLines > 0 || maxSize > 0 then when else dailyOpenTime) ==>
                    && (maxLines > 0 ==> maxLinesCurLines < maxLines)
                    && (maxSize > 0 && clean ==> |files[Live]| < maxSize)
                    && (daily ==> dailyOpenTime.day == when.day))
              && (target.Some? ==>
                    && rotate && Live in files
                    && (if maxLines > 0 || maxSize > 0 then LowestFree(files.Keys, when, target.value)
                        else if Dated(dailyOpenTime) !in files then target.value == Dated(dailyOpenTime)
                        else LowestFree(files.Keys, dailyOpenTime, target.value))
                    && ((maxLines > 0 && Newlines(files[Live]) >= maxLines)
                        || (maxSize > 0 && |files[Live]| >= maxSize)
                        || (daily && dailyOpenTime.day != when.day)))
    {
      hide AllOf, Newlines, FirstFree, Concat;
      KeptLive(files, start, older, held);
      TargetMeans(files.Keys, Limited(), when, dailyOpenTime);
    }

    /** `part` is what is going to be written next. */
    method RotateIfDue(when: Date, now: Date, readable: nat -> nat, ghost part: seq<byte>)
      requires Valid()
      modifies this`files, this`maxLinesCurLines, this`maxSizeCurSize, this`dailyOpenTime, this`older, this`held, this`clean
      ensures Valid() && Live in files && Live in old(files)
      ensures var target := old(RotationTarget(when));
              && files[Live := files[Live] + part] == (match target
                   case None => old(files)[Live := old(files)[Live] + part]
                   case Some(name) => old(files)[name := old(files)[Live]][Live := part])
              && maxLinesCurLines == (if target.Some? then 0 else old(maxLinesCurLines))
              && clean == (target.Some? || old(clean))
              && dailyOpenTime == if target.Some? then now else old(dailyOpenTime)
    {
      hide Kept, AllOf, Concat, Newlines, Target, Rotated;
      ghost var before := files;
      KeptLive(files, start, older, held);
      if rotate && NeedRotate(when.day) {
        var ok := DoRotate(when, now, readable);
        if ok {
          FirstLine(before, old(RotationTarget(when)).value, part);
        }
      }
    }

    /** A line with its time header and newline; `when` is its time and `now` the clock when the file is reopened.
      * `n` is what the write reports: it fails if that is less than the whole line, and is then not counted.
      */
    method WriteMsg(level: int, when: Date, header: seq<byte>, msg: seq<byte>, now: Date, readable: nat -> nat, n: nat)
      requires Valid() && n <= |header| + |msg| + 1
      modifies this`files, this`maxLinesCurLines, this`maxSizeCurSize, this`dailyOpenTime, this`older, this`held, this`log,
        this`clean
      ensures Valid()
      ensures level > maxLevel || level < minLevel ==>
                files == old(files) && log == old(log) && maxLinesCurLines == old(maxLinesCurLines) && clean == old(clean)
      ensures minLevel <= level <= maxLevel ==>
                var line, target := header + msg + [NEWLINE], old(RotationTarget(when));
                && log == old(log) + [line[..n]]
                && files == (match target
                             case None => old(files)[Live := old(files)[Live] + line[..n]]
                             case Some(name) => old(files)[name := old(files)[Live]][Live := line[..n]])
                && maxLinesCurLines == (if target.Some? then 0 else old(maxLinesCurLines)) + (if n == |line| then 1 else 0)
                && clean == ((target.Some? || old(clean)) && n == |line|)
                && dailyOpenTime == if target.Some? then now else old(dailyOpenTime)
      ensures minLevel <= level <= maxLevel && rotate
                && !AllTaken(old(files.Keys), if maxLines > 0 || maxSize > 0 then when else old(dailyOpenTime)) ==>
                && (maxLines > 0 ==> maxLinesCurLines <= maxLines)
                && (maxSize > 0 && old(clean) ==> Live in files && |files[Live]| < maxSize + n)
                && (daily ==> dailyOpenTime.day == when.day || dailyOpenTime == now)
    {
      hide Kept, AllOf, Concat, Newlines, Target, Rotated;
      RotationIsDue(when);
      if level > maxLevel || level < minLevel {
        return;
      }
      var line := header + msg + [NEWLINE];
      RotateIfDue(when, now, readable, line[..n]);
      Append(line[..n], header + msg);
      if n == |line| {
        maxLinesCurLines := maxLinesCurLines + 1;
        maxSizeCurSize := maxSizeCurSize + |line|;
      } else {
        clean := false;
      }
    }

    /** The bytes that reach the live file. The counters are as before. */
    method Append(part: seq<byte>, ghost text: seq<byte>)
      requires Valid() && part <= text + [NEWLINE]
      modifies this`files, this`held, this`log
      ensures Kept(files, start, older, held) && AllOf(older + [Live], held) == log && log == old(log) + [part]
      ensures Live in old(files) && files == old(files)[Live := old(files)[Live] + part]
      ensures |files[Live]| == |old(files)[Live]| + |part|
      ensures Newlines(files[Live]) >= Newlines(old(files)[Live]) + (if part == text + [NEWLINE] then 1 else 0)
    {
      hide Kept, AllOf, Concat, Newlines;
      WriteKeeps(files, start, older, held, part);
      KeptLive(files, start, older, held);
      if part == text + [NEWLINE] {
        LineEnds(files[Live], text);
      } else {
        NewlinesAppend(files[Live], part);
      }
      files := files[Live := files[Live] + part];
      held := held[Live := held[Live] + [part]];
      log := log + [part];
    }

    /** The goroutine that wakes up at midnight. */
    method DailyRotate(now: Date, readable: nat -> nat)
      requires Valid()
      modifies this`files, this`maxLinesCurLines, this`maxSizeCurSize, this`dailyOpenTime, this`older, this`held, this`clean
      ensures Valid() && log == old(log)
      ensures var target := if old(NeedRotate(now.day))
                            then Target(old(files.Keys), Limited(), now, old(dailyOpenTime)) else None;
              if target.Some? then Live in old(files) && files == Rotated(old(files), target.value) && dailyOpenTime == now
              else files == old(files) && dailyOpenTime == old(dailyOpenTime)
      ensures !AllTaken(old(files.Keys), if maxLines > 0 || maxSize > 0 then now else old(dailyOpenTime)) ==>
                && (maxLines > 0 ==> maxLinesCurLines < maxLines) && (daily ==> dailyOpenTime.day == now.day)
                && (maxSize > 0 && clean ==> Live in files && |files[Live]| < maxSize)
      ensures files != old(files) ==>
                && Live in old(files)
                && ((maxLines > 0 && Newlines(old(files)[Live]) >= maxLines)
                    || (maxSize > 0 && |old(files)[Live]| >= maxSize)
                    || (daily && old(dailyOpenTime).day != now.day))
    {
      hide AllOf, Newlines, FirstFree, Concat;
      TargetMeans(files.Keys, Limited(), now, dailyOpenTime);
      KeptLive(files, start, older, held);
      if NeedRotate(now.day) {
        var _ := DoRotate(now, now, readable);
      }
    }

    /** No file found at the start is ever changed but the live one, and every record is in exactly one file: the
      * renamed files in the order of their renaming, and then the live one, hold the log cut into consecutive
      * pieces.
      */
    lemma NothingIsLost()
      requires Valid()
      ensures forall n :: n in start && n != Live ==> n in files && files[n] == start[n]
      ensures Distinct(older + [Live]) && forall n :: n in older ==> n in files && n !in start
      ensures AllOf(older + [Live], held) == log && AllOf(older + [Live], files) == Concat(log)
      ensures forall n :: n in older + [Live] ==> n in held && n in files && files[n] == Concat(held[n])
    {
      hide Concat, AllOf;
      assert forall i :: 0 <= i < |older| ==> older[i] in older;
      BytesAreRecords(files, older + [Live], held);
    }
  }

  lemma KeptLive(files: map<Name, seq<byte>>, start: map<Name, seq<byte>>, older: seq<Name>, held: map<Name, seq<seq<byte>>>)
    requires Kept(files, start, older, held)
    ensures Live in files && Live in held
  {
  }

  lemma FirstLine(before: map<Name, seq<byte>>, name: Name, part: seq<byte>)
    requires Live in before && name != Live
    ensures var after := Rotated(before, name);
            Live in after && after[Live] == []
            && after[Live := after[Live] + part] == before[name := before[Live]][Live := part]
  {
    assert [] + part == part;
  }

  lemma LineEnds(live: seq<byte>, text: seq<byte>)
    ensures Newlines(live + (text + [NEWLINE])) >= Newlines(live) + 1
  {
    NewlinesAppend(live, text + [NEWLINE]);
    NewlinesAppend(text, [NEWLINE]);
  }

  lemma Join<T>(a: seq<T>, b: seq<T>, c: seq<T>)
    ensures a + b + c == a + (b + c)
  {
  }

  lemma {:induction false} ConcatAppend(a: seq<seq<byte>>, b: seq<seq<byte>>)
    ensures Concat(a + b) == Concat(a) + Concat(b)
  {
    if b == [] {
      assert a + b == a;
    } else {
      var n := |b| - 1;
      ConcatAppend(a, b[..n]);
      assert (a + b)[..|a + b| - 1] == a + b[..n];
      Join(Concat(a), Concat(b[..n]), b[n]);
    }
  }

  lemma AllSnoc<T>(chain: seq<Name>, m: map<Name, seq<T>>)
    requires chain != []
    ensures AllOf(chain, m) == AllOf(chain[..|chain| - 1], m) + Of(m, chain[|chain| - 1])
  {
    hide Of;
  }

  lemma AllOfNone<T>(m: map<Name, seq<T>>)
    ensures AllOf([], m) == []
  {
  }

  lemma {:induction false} BytesAreRecords(files: map<Name, seq<byte>>, chain: seq<Name>, held: map<Name, seq<seq<byte>>>)
    requires forall i :: 0 <= i < |chain| ==> Of(files, chain[i]) == Concat(Of(held, chain[i]))
    ensures AllOf(chain, files) == Concat(AllOf(chain, held))
  {
    assert Concat([]) == [];
    hide Concat, AllOf, Of;
    if chain == [] {
      AllOfNone(files);
      AllOfNone(held);
    } else {
      var n := |chain| - 1;
      BytesAreRecords(files, chain[..n], held);
      AllSnoc(chain, files);
      AllSnoc(chain, held);
      ConcatAppend(AllOf(chain[..n], held), Of(held, chain[n]));
    }
  }
}
