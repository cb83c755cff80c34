/** The rotating file target of the ozzo logger: a current file and numbered backups of it. */
module BackupChain {
  import opened Common

  /** One message handed to the operating system, of which the first `n` bytes reached the file. */
  datatype Write = Write(msg: seq<byte>, n: nat)

  function Put(w: Write): (bytes: seq<byte>) {
    if w.n <= |w.msg| then w.msg[..w.n] else w.msg
  }

  function Flat(ws: seq<Write>): (bytes: seq<byte>) {
    if ws == [] then [] else Flat(ws[..|ws| - 1]) + Put(ws[|ws| - 1])
  }

  // ---------------------------------------------------------------- directories as values

  // Name 0 is the log file itself and name i > 0 its i-th backup.

  function At<T>(files: map<nat, seq<T>>, i: nat): (content: seq<T>) {
    if i in files then files[i] else []
  }

  /** Backups n, ..., 1 and then the current file. */
  function Chain<T>(files: map<nat, seq<T>>, n: nat): (all: seq<T>) {
    if n == 0 then At(files, 0) else At(files, n) + Chain(files, n - 1)
  }

  /** The name a file had that is called `j` once the names above `i` have been dealt with; `i + 1` has just been
    * vacated and names beyond `backupCount` are left alone.
    */
  function Before(j: nat, backupCount: nat, i: int): (name: Option<nat>) {
    if j <= i || j > backupCount then Some(j) else if j == i + 1 || j == 0 then None else Some(j - 1)
  }

  predicate Named<T>(files: map<nat, seq<T>>, backupCount: nat, i: int, j: nat) {
    Before(j, backupCount, i).Some? && Before(j, backupCount, i).value in files
  }

  /** A directory in the middle of a rotation, with name `i` next. */
  function Midway<T>(files: map<nat, seq<T>>, backupCount: nat, i: int): (moved: map<nat, seq<T>>)
    ensures forall j: nat :: j in moved <==> Named(files, backupCount, i, j)
    ensures forall j: nat :: j in moved ==> Named(files, backupCount, i, j) && moved[j] == files[Before(j, backupCount, i).value]
  {
    var names := files.Keys + set i | i in files :: i + 1;
    assert forall j: nat :: Named(files, backupCount, i, j) ==> j in names by {
      forall j: nat | Named(files, backupCount, i, j) ensures j in names {
        if Before(j, backupCount, i).value != j {
          assert j == Before(j, backupCount, i).value + 1;
        }
      }
    }
    map j | j in names && Named(files, backupCount, i, j) :: files[Before(j, backupCount, i).value]
  }

  /** Every name moves up by one and the last one allowed is dropped. */
  function Shifted<T>(files: map<nat, seq<T>>, backupCount: nat): (moved: map<nat, seq<T>>) {
    Midway(files, backupCount, -1)
  }

  lemma ShiftStarts<T>(files: map<nat, seq<T>>, backupCount: nat)
    ensures Midway(files, backupCount, backupCount) == files
  {
  }

  /** `os.Rename` onto a free name. */
  function Renamed<T>(files: map<nat, seq<T>>, from: nat, to: nat): (files': map<nat, seq<T>>)
    requires from in files
  {
    map j: nat | j in files.Keys + {to} && j != from :: if j == to then files[from] else files[j]
  }

  function Removed<T>(files: map<nat, seq<T>>, name: nat): (files': map<nat, seq<T>>) {
    map j: nat | j in files && j != name :: files[j]
  }

  /** One round of the renaming loop: the target of a renaming is free. */
  lemma ShiftStep<T>(files: map<nat, seq<T>>, backupCount: nat, i: nat)
    requires i <= backupCount
    ensures var mid, next := Midway(files, backupCount, i), Midway(files, backupCount, i - 1);
            if i !in mid then next == mid
            else if i == backupCount then next == Removed(mid, i)
            else i + 1 !in mid && next == Renamed(mid, i, i + 1)
  {
    var mid, next := Midway(files, backupCount, i), Midway(files, backupCount, i - 1);
    assert i in mid <==> Named(files, backupCount, i, i);
    assert i + 1 in next <==> Named(files, backupCount, i - 1, i + 1);
    assert i + 1 in mid <==> Named(files, backupCount, i, i + 1);
    assert i in next <==> Named(files, backupCount, i - 1, i);
    var made: map<nat, seq<T>> := 
      if i !in mid then mid else if i == backupCount then Removed(mid, i) else Renamed(mid, i, i + 1);
    forall j: nat ensures (j in next <==> j in made) && (j in next ==> next[j] == made[j]) {
      assert j in mid <==> Named(files, backupCount, i, j);
      assert j in next <==> Named(files, backupCount, i - 1, j);
    }
    assert next == made;
  }

  lemma ShiftedAt<T>(files: map<nat, seq<T>>, backupCount: nat, i: nat)
    requires i <= backupCount
    ensures At(Shifted(files, backupCount), i) == if i == 0 then [] else At(files, i - 1)
    ensures At(Shifted(files, backupCount)[0 := []], i) == At(Shifted(files, backupCount), i)
  {
    hide Midway;
  }

  lemma {:induction false} ShiftKeepsOrder<T>(files: map<nat, seq<T>>, backupCount: nat, n: nat)
    requires n < backupCount
    ensures Chain(Shifted(files, backupCount)[0 := []], n + 1) == Chain(files, n)
    ensures Chain(Shifted(files, backupCount), n + 1) == Chain(files, n)
  {
    hide Shifted, At;
    ShiftedAt(files, backupCount, 0);
    ShiftedAt(files, backupCount, n + 1);
    if n > 0 {
      ShiftKeepsOrder(files, backupCount, n - 1);
    }
  }

  /** Rotation loses exactly the oldest backup allowed, if there is one. */
  lemma ShiftDropsOldest<T>(files: map<nat, seq<T>>, backupCount: nat)
    ensures Chain(files, backupCount) == At(files, backupCount) + Chain(Shifted(files, backupCount)[0 := []], backupCount)
    ensures Chain(files, backupCount) == At(files, backupCount) + Chain(Shifted(files, backupCount), backupCount)
  {
    hide Shifted, At;
    ShiftedAt(files, backupCount, 0);
    if backupCount > 0 {
      ShiftKeepsOrder(files, backupCount, backupCount - 1);
    }
  }

  lemma {:induction false} ChainBeyond<T>(files: map<nat, seq<T>>, m: nat, n: nat)
    requires m <= n && forall i :: i in files ==> i <= m
    ensures Chain(files, n) == Chain(files, m)
  {
    if m < n {
      ChainBeyond(files, m, n - 1);
    }
  }

  lemma {:induction false} AppendToCurrent<T>(files: map<nat, seq<T>>, more: seq<T>, n: nat)
    ensures Chain(files[0 := At(files, 0) + more], n) == Chain(files, n) + more
  {
    if n > 0 {
      AppendToCurrent(files, more, n - 1);
      var older, newer := At(files, n), Chain(files, n - 1);
      assert older + (newer + more) == older + newer + more;
    }
  }

  lemma {:induction false} FlatAppend(a: seq<Write>, b: seq<Write>)
    ensures Flat(a + b) == Flat(a) + Flat(b)
  {
    hide Put;
    if b == [] {
      assert a + b == a;
    } else {
      var n := |b| - 1;
      FlatAppend(a, b[..n]);
      assert (a + b)[..|a + b| - 1] == a + b[..n];
      assert Flat(a) + (Flat(b[..n]) + Put(b[n])) == Flat(a) + Flat(b[..n]) + Put(b[n]);
    }
  }

  lemma {:induction false} ChainBytes(files: map<nat, seq<byte>>, history: map<nat, seq<Write>>, n: nat)
    requires files.Keys == history.Keys && forall i :: i in files ==> files[i] == Flat(history[i])
    ensures Chain(files, n) == Flat(Chain(history, n))
  {
    hide Flat;
    FlatNothing();
    assert At(files, n) == Flat(At(history, n));
    if n > 0 {
      ChainBytes(files, history, n - 1);
      FlatAppend(At(history, n), Chain(history, n - 1));
    }
  }

  // ---------------------------------------------------------------- what a rotating directory looks like

  /** Backups 1, ..., n for some n up to `backupCount`, the current file while the target is open, and in each file
    * the bytes of the writes that went to it.
    */
  ghost predicate Directory(files: map<nat, seq<byte>>, history: map<nat, seq<Write>>, backupCount: nat, isOpen: bool) {
    && (forall i :: i in files ==> i <= backupCount)
    && (forall i: nat :: i in files && i > 1 ==> Previous(i) in files)
    && (isOpen <==> 0 in files)
    && files.Keys == history.Keys && (forall i :: i in files ==> files[i] == Flat(history[i]))
  }

  function Previous(i: nat): (j: nat)
    requires i > 0
  {
    i - 1
  }

  ghost predicate HasBig(ws: seq<Write>, maxBytes: nat) {
    exists w :: w in ws && |w.msg| > maxBytes
  }

  /** A file is over the limit only if a single message over the limit was written to it. */
  ghost predicate Limited(files: map<nat, seq<byte>>, history: map<nat, seq<Write>>, maxBytes: nat) {
    forall i :: i in files && i in history && |files[i]| > maxBytes ==> HasBig(history[i], maxBytes)
  }

  function Reopened<T>(files: map<nat, seq<T>>, backupCount: nat, reopens: bool): (files': map<nat, seq<T>>) {
    if reopens then Shifted(files, backupCount)[0 := []] else Shifted(files, backupCount)
  }

  lemma ReopenedIs<T>(files: map<nat, seq<T>>, backupCount: nat, reopens: bool)
    ensures var after := Reopened(files, backupCount, reopens);
            && (0 in after <==> reopens) && (reopens ==> after[0] == [])
            && forall j: nat :: j > 0 ==>
                 && (j in after <==> Named(files, backupCount, -1, j))
                 && (j in after ==> after[j] == files[Before(j, backupCount, -1).value])
  {
  }

  lemma RotatedDirectory(files: map<nat, seq<byte>>, history: map<nat, seq<Write>>, backupCount: nat, reopens: bool)
    requires Directory(files, history, backupCount, true)
    ensures Directory(Reopened(files, backupCount, reopens), Reopened(history, backupCount, reopens), backupCount, reopens)
  {
    hide Reopened, Flat;
    FlatNothing();
    ReopenedIs(files, backupCount, reopens);
    ReopenedIs(history, backupCount, reopens);
    var f, h := Reopened(files, backupCount, reopens), Reopened(history, backupCount, reopens);
    forall j: nat ensures j in f <==> j in h {
    }
    forall j: nat | j in f ensures j <= backupCount && f[j] == Flat(h[j]) {
    }
    forall j: nat | j in f && j > 1 ensures Previous(j) in f {
      assert Before(j, backupCount, -1) == Some(Previous(j)) && Previous(j) in files;
      if j > 2 {
        assert Before(Previous(j), backupCount, -1) == Some(Previous(Previous(j)));
      }
    }
  }

  lemma RotatedLimit(files: map<nat, seq<byte>>, history: map<nat, seq<Write>>, backupCount: nat, maxBytes: nat, reopens: bool)
    requires files.Keys == history.Keys && Limited(files, history, maxBytes)
    ensures Limited(Reopened(files, backupCount, reopens), Reopened(history, backupCount, reopens), maxBytes)
  {
    hide Reopened, HasBig;
    ReopenedIs(files, backupCount, reopens);
    ReopenedIs(history, backupCount, reopens);
  }

  /** Nothing is lost but the oldest backup allowed. */
  lemma RotatedChain(history: map<nat, seq<Write>>, backupCount: nat, reopens: bool)
    ensures Chain(history, backupCount) == At(history, backupCount) + Chain(Reopened(history, backupCount, reopens), backupCount)
  {
    hide Shifted;
    ShiftDropsOldest(history, backupCount);
  }

  lemma WrittenDirectory(files: map<nat, seq<byte>>, history: map<nat, seq<Write>>, backupCount: nat, w: Write)
    requires Directory(files, history, backupCount, true)
    ensures Directory(files[0 := files[0] + Put(w)], history[0 := history[0] + [w]], backupCount, true)
  {
    FlatSnoc(history[0], w);
    hide Flat, Put;
    var f := files[0 := files[0] + Put(w)];
    forall i: nat | i in f && i > 1 ensures Previous(i) in f {
      assert Previous(i) in files;
    }
  }

  lemma WrittenLimit(files: map<nat, seq<byte>>, history: map<nat, seq<Write>>, maxBytes: nat, w: Write)
    requires 0 in files && 0 in history && files.Keys == history.Keys && Limited(files, history, maxBytes)
    requires |files[0]| + |w.msg| <= maxBytes || |w.msg| > maxBytes
    ensures Limited(files[0 := files[0] + Put(w)], history[0 := history[0] + [w]], maxBytes)
  {
    assert w in history[0] + [w];
    assert forall i, m :: i in history && m in history[i] ==> m in history[0 := history[0] + [w]][i];
  }

  // ---------------------------------------------------------------- where the log is cut into files

  function AllOf(pieces: seq<seq<Write>>): (log: seq<Write>) {
    if pieces == [] then [] else AllOf(pieces[..|pieces| - 1]) + pieces[|pieces| - 1]
  }

  /** A file goes on as long as the next message fits into it, or into no file at all. */
  ghost predicate GoesOn(piece: seq<Write>, maxBytes: nat) {
    forall k :: 0 < k < |piece| ==>
      |Flat(piece[..k])| + |piece[k].msg| <= maxBytes || |piece[k].msg| > maxBytes
  }

  /** A file begins with a message that did not fit into the one before, but does fit into a file. */
  ghost predicate Begins(before: seq<Write>, bytes: nat, maxBytes: nat) {
    |Flat(before)| + bytes > maxBytes && bytes <= maxBytes
  }

  /** All files there have ever been, oldest first; only the last may have nothing in it yet. */
  ghost predicate Cut(pieces: seq<seq<Write>>, maxBytes: nat) {
    && pieces != []
    && (forall j :: 0 <= j < |pieces| ==> GoesOn(pieces[j], maxBytes))
    && (forall j :: 0 <= j < |pieces| - 1 ==> pieces[j] != [])
    && (forall j :: 0 < j < |pieces| && pieces[j] != [] ==> Begins(pieces[j - 1], |pieces[j][0].msg|, maxBytes))
  }

  function Grown(pieces: seq<seq<Write>>, w: Write): (pieces': seq<seq<Write>>)
    requires pieces != []
  {
    pieces[|pieces| - 1 := pieces[|pieces| - 1] + [w]]
  }

  lemma PieceGrows(piece: seq<Write>, w: Write, maxBytes: nat)
    requires GoesOn(piece, maxBytes)
    requires piece != [] ==> |Flat(piece)| + |w.msg| <= maxBytes || |w.msg| > maxBytes
    ensures GoesOn(piece + [w], maxBytes)
  {
    hide Flat;
    var more := piece + [w];
    forall k | 0 < k < |more| ensures |Flat(more[..k])| + |more[k].msg| <= maxBytes || |more[k].msg| > maxBytes {
      assert more[..k] == piece[..k];
      assert piece[..|piece|] == piece;
    }
  }

  lemma CutGrows(pieces: seq<seq<Write>>, w: Write, maxBytes: nat)
    requires Cut(pieces, maxBytes)
    requires var last := pieces[|pieces| - 1];
             if last != [] then |Flat(last)| + |w.msg| <= maxBytes || |w.msg| > maxBytes
             else |pieces| > 1 ==> Begins(pieces[|pieces| - 2], |w.msg|, maxBytes)
    ensures Cut(Grown(pieces, w), maxBytes)
  {
    hide GoesOn, Begins;
    PieceGrows(pieces[|pieces| - 1], w, maxBytes);
    assert Grown(pieces, w)[|pieces| - 1][0] == if pieces[|pieces| - 1] == [] then w else pieces[|pieces| - 1][0];
  }

  lemma CutStarts(pieces: seq<seq<Write>>, maxBytes: nat)
    requires Cut(pieces, maxBytes) && pieces[|pieces| - 1] != []
    ensures Cut(pieces + [[]], maxBytes)
  {
    hide Begins, GoesOn;
    var more := pieces + [[]];
    assert forall j :: 0 <= j < |pieces| ==> more[j] == pieces[j];
    NothingGoesOn(maxBytes);
    forall j | 0 < j < |more| && more[j] != [] ensures Begins(more[j - 1], |more[j][0].msg|, maxBytes) {
      assert more[j] == pieces[j] && more[j - 1] == pieces[j - 1];
    }
  }

  lemma NothingGoesOn(maxBytes: nat)
    ensures GoesOn([], maxBytes)
  {
  }

  lemma AllOfStarted(pieces: seq<seq<Write>>)
    ensures AllOf(pieces + [[]]) == AllOf(pieces)
  {
    assert (pieces + [[]])[..|pieces|] == pieces && AllOf(pieces) + [] == AllOf(pieces);
  }

  lemma AllOfGrown(pieces: seq<seq<Write>>, w: Write)
    requires pieces != []
    ensures AllOf(Grown(pieces, w)) == AllOf(pieces) + [w]
  {
    var n := |pieces| - 1;
    assert Grown(pieces, w)[..n] == pieces[..n];
  }

  /** The files in the directory are the latest pieces. */
  ghost predicate Latest(history: map<nat, seq<Write>>, pieces: seq<seq<Write>>, isOpen: bool) {
    && (forall i :: i in history ==> i < |pieces| && history[i] == pieces[|pieces| - 1 - i])
    && pieces != [] && (0 in history <==> isOpen) && (!isOpen ==> pieces[|pieces| - 1] == [])
  }

  lemma LatestRotated(history: map<nat, seq<Write>>, pieces: seq<seq<Write>>, backupCount: nat, reopens: bool)
    requires Latest(history, pieces, true) && forall i :: i in history ==> i <= backupCount
    ensures Latest(Reopened(history, backupCount, reopens), pieces + [[]], reopens)
  {
    hide Reopened;
    ReopenedIs(history, backupCount, reopens);
    var h := Reopened(history, backupCount, reopens);
    forall i | i in h ensures i < |pieces| + 1 && h[i] == (pieces + [[]])[|pieces| - i] {
      if i > 0 {
        assert Named(history, backupCount, -1, i);
        assert i <= backupCount ==> Before(i, backupCount, -1) == Some(i - 1);
      }
    }
  }

  lemma LatestGrown(history: map<nat, seq<Write>>, pieces: seq<seq<Write>>, w: Write)
    requires Latest(history, pieces, true)
    ensures Latest(history[0 := history[0] + [w]], Grown(pieces, w), true)
  {
  }

  /** How many bytes all the messages have. */
  function Offered(ws: seq<Write>): (n: nat) {
    if ws == [] then 0 else Offered(ws[..|ws| - 1]) + |ws[|ws| - 1].msg|
  }

  lemma {:induction false} OfferedAppend(a: seq<Write>, b: seq<Write>)
    ensures Offered(a + b) == Offered(a) + Offered(b)
  {
    if b == [] {
      assert a + b == a;
    } else {
      OfferedAppend(a, b[..|b| - 1]);
      assert (a + b)[..|a + b| - 1] == a + b[..|b| - 1];
    }
  }

  lemma {:induction false} PutIsLess(ws: seq<Write>)
    ensures |Flat(ws)| <= Offered(ws)
  {
    if ws != [] {
      PutIsLess(ws[..|ws| - 1]);
    }
  }

  /** The first two pieces are part of the log. */
  lemma {:induction false} TwoPieces(pieces: seq<seq<Write>>)
    requires |pieces| >= 2
    ensures Offered(AllOf(pieces)) >= Offered(pieces[0]) + Offered(pieces[1])
  {
    var n := |pieces| - 1;
    OfferedAppend(AllOf(pieces[..n]), pieces[n]);
    if n > 1 {
      TwoPieces(pieces[..n]);
    } else {
      OnePiece(pieces[..1]);
    }
  }

  lemma OnePiece(pieces: seq<seq<Write>>)
    requires |pieces| == 1
    ensures AllOf(pieces) == pieces[0]
  {
    assert pieces[..0] == [] && AllOf([]) == [] && [] + pieces[0] == pieces[0];
  }

  lemma TwoPiecesAreFull(pieces: seq<seq<Write>>, maxBytes: nat)
    requires Cut(pieces, maxBytes) && |pieces| > 1 && pieces[|pieces| - 1] != []
    ensures Offered(AllOf(pieces)) > maxBytes
  {
    hide Flat, GoesOn, Offered;
    TwoPieces(pieces);
    FirstIsOffered(pieces[1]);
    PutIsLess(pieces[0]);
    assert Begins(pieces[0], |pieces[1][0].msg|, maxBytes);
  }

  lemma FirstIsOffered(ws: seq<Write>)
    requires ws != []
    ensures Offered(ws) >= |ws[0].msg|
  {
    assert ws == [ws[0]] + ws[1..];
    OfferedAppend([ws[0]], ws[1..]);
    assert [ws[0]][..0] == [];
  }

  // ---------------------------------------------------------------- the target

  /** `isOpen` tells whether the file handle is there; it is gone once reopening after a rotation has failed. The
    * ghost fields follow the history: which writes each file holds, all writes that ever reached a file, how many of
    * the oldest have gone with dropped backups, and the pieces into which rotation has cut them.
    */
  class FileTarget {
    const rotating: bool
    const backupCount: nat
    const maxBytes: nat
    var isOpen: bool
    var currentBytes: nat
    var files: map<nat, seq<byte>>
    ghost var history: map<nat, seq<Write>>
    ghost var log: seq<Write>
    ghost var dropped: nat
    ghost var pieces: seq<seq<Write>>

    ghost predicate Valid()
      reads this
    {
      Consistent() && (isOpen && |pieces| > 1 ==> pieces[|pieces| - 1] != [])
    }

    /** All of it but that a new file has been written to. */
    ghost predicate Consistent()
      reads this
    {
      && Latest(history, pieces, isOpen) && AllOf(pieces) == log && (rotating ==> Cut(pieces, maxBytes))
      && (!rotating ==> |pieces| == 1)
      && Directory(files, history, backupCount, isOpen)
      && (isOpen ==> currentBytes == |files[0]|)
      && dropped <= |log| && Chain(history, backupCount) == log[dropped..]
      && (rotating ==> Limited(files, history, maxBytes))
    }

    /** `Open` in a directory without log files. */
    constructor (rotating: bool, backupCount: nat, maxBytes: nat)
      requires rotating ==> maxBytes > 0
      ensures Valid() && isOpen && files == map[0 := []] && log == []
      ensures this.rotating == rotating && this.backupCount == backupCount && this.maxBytes == maxBytes
    {
      this.rotating, this.backupCount, this.maxBytes := rotating, backupCount, maxBytes;
      isOpen, currentBytes, files := true, 0, map[0 := []];
      history, log, dropped, pieces := map[0 := []], [], 0, [[]];
      new;
      OnePiece([[]]);
      ChainBeyond(history, 0, backupCount);
    }

    /** Renaming goes from the top down, so no name is taken when a file moves to it. */
    method ShiftBackups()
      modifies this`files
      ensures files == Shifted(old(files), backupCount)
    {
      hide Midway, Renamed, Removed;
      ghost var was := files;
      ShiftStarts(was, backupCount);
      var i: int := backupCount;
      while i >= 0
        invariant -1 <= i <= backupCount && files == Midway(was, backupCount, i)
      {
        ShiftStep(was, backupCount, i);
        if i in files {
          if i == backupCount {
            files := Removed(files, i);
          } else {
            RenameTo(i, i + 1);
          }
        }
        i := i - 1;
      }
    }

    /** The precondition is that nothing is overwritten. */
    method RenameTo(from: nat, to: nat)
      requires from in files && to !in files
      modifies this`files
      ensures files == Renamed(old(files), from, to)
    {
      files := Renamed(files, from, to);
    }

    predicate NeedsRotation(bytes: nat)
      reads this`currentBytes
    {
      currentBytes + bytes > maxBytes && bytes <= maxBytes
    }

    /** `reopens` tells whether opening the new file succeeds. */
    method Rotate(bytes: nat, reopens: bool)
      requires Valid() && isOpen && rotating
      modifies this`isOpen, this`currentBytes, this`files, this`history, this`dropped, this`pieces
      ensures Consistent()
      ensures !old(NeedsRotation(bytes)) ==>
                && isOpen && files == old(files) && history == old(history) && currentBytes == old(currentBytes)
                && pieces == old(pieces)
      ensures old(NeedsRotation(bytes)) ==>
                && isOpen == reopens && currentBytes == 0
                && files == Reopened(old(files), backupCount, reopens) && history == Reopened(old(history), backupCount, reopens)
                && pieces == old(pieces) + [[]] && Begins(old(pieces)[|old(pieces)| - 1], bytes, maxBytes)
    {
      hide Chain, Flat, Shifted, Limited, Directory, Cut, Latest, AllOf;
      if !NeedsRotation(bytes) {
        return;
      }
      LastPiece();
      CutStarts(pieces, maxBytes);
      AllOfStarted(pieces);
      DirectoryKeys();
      LatestRotated(history, pieces, backupCount, reopens);
      RotatedDirectory(files, history, backupCount, reopens);
      DirectoryKeys();
      RotatedLimit(files, history, backupCount, maxBytes, reopens);
      RotatedChain(history, backupCount, reopens);
      DropPrefix(log, dropped, At(history, backupCount), Chain(Reopened(history, backupCount, reopens), backupCount));
      currentBytes := 0;
      ShiftBackups();
      dropped := dropped + |At(history, backupCount)|;
      history := Reopened(history, backupCount, reopens);
      pieces := pieces + [[]];
      isOpen := reopens;
      if reopens {
        files := files[0 := []];
      }
    }

    /** The current file is the last piece. */
    lemma LastPiece()
      requires Consistent() && isOpen
      ensures pieces != [] && files[0] == Flat(pieces[|pieces| - 1]) && |files[0]| == currentBytes
      ensures currentBytes > 0 ==> pieces[|pieces| - 1] != []
      ensures 0 in history && history[0] == pieces[|pieces| - 1] && 0 in files
    {
      FlatNothing();
    }

    lemma DirectoryKeys()
      requires Directory(files, history, backupCount, isOpen)
      ensures files.Keys == history.Keys && (isOpen <==> 0 in files) && forall i :: i in history ==> i <= backupCount
    {
    }

    /** One message, newline included; `allowed` is the filter's verdict and `n` what the write reports. */
    method Process(allowed: bool, msg: seq<byte>, n: nat, reopens: bool)
      requires Valid() && n <= |msg|
      modifies this
      ensures Valid()
      ensures !allowed || !old(isOpen) ==> files == old(files) && log == old(log) && isOpen == old(isOpen)
      ensures allowed && old(isOpen) ==>
                var rotates := rotating && old(NeedsRotation(|msg|));
                var before := if rotates then Reopened(old(files), backupCount, reopens) else old(files);
                && isOpen == (!rotates || reopens)
                && files == (if isOpen then before[0 := At(before, 0) + msg[..n]] else before)
                && log == (if isOpen then old(log) + [Write(msg, n)] else old(log))
    {
      hide Chain, Flat, Limited, Directory, Cut, AllOf, Latest;
      if isOpen && allowed {
        LastPiece();
        if rotating {
          Rotate(|msg|, reopens);
        }
        DirectoryKeys();
        if isOpen {
          Append(msg, n);
        }
      }
    }

    /** The write itself, to a file that has room for the message or to which it belongs in any case. */
    method Append(msg: seq<byte>, n: nat)
      requires Consistent() && isOpen && n <= |msg|
      requires rotating ==>
                 var last := pieces[|pieces| - 1];
                 if last == [] && |pieces| > 1 then Begins(pieces[|pieces| - 2], |msg|, maxBytes)
                 else currentBytes + |msg| <= maxBytes || |msg| > maxBytes
      requires rotating ==> currentBytes + |msg| <= maxBytes || |msg| > maxBytes
      modifies this`currentBytes, this`files, this`history, this`log, this`pieces
      ensures Valid() && 0 in old(files)
      ensures files == old(files)[0 := old(files)[0] + msg[..n]] && log == old(log) + [Write(msg, n)]
    {
      hide Chain, Flat, Limited, Directory, Cut, AllOf, Latest, Begins;
      LastPiece();
      DirectoryKeys();
      ghost var w := Write(msg, n);
      if rotating {
        CutGrows(pieces, w, maxBytes);
        WrittenLimit(files, history, maxBytes, w);
      }
      AllOfGrown(pieces, w);
      LatestGrown(history, pieces, w);
      AppendToCurrent(history, [w], backupCount);
      WrittenDirectory(files, history, backupCount, w);
      pieces := Grown(pieces, w);
      files := files[0 := files[0] + msg[..n]];
      currentBytes := currentBytes + n;
      history := history[0 := history[0] + [w]];
      log := log + [w];
    }

    /** Backups and current file together are the end of everything that was ever written; there are never more
      * backups than configured, without gaps in their numbers; and a file is over the limit only because of a
      * message that alone is over the limit.
      */
    lemma HoldsATail() returns (cut: nat)
      requires Valid()
      ensures cut <= |Flat(log)| && Chain(files, backupCount) == Flat(log)[cut..]
      ensures forall i :: i in files ==> i <= backupCount && (i > 1 ==> i - 1 in files)
      ensures rotating ==> forall i :: i in files && |files[i]| > maxBytes ==> i in history && HasBig(history[i], maxBytes)
    {
      hide Flat, Chain, HasBig;
      ChainBytes(files, history, backupCount);
      FlatAppend(log[..dropped], log[dropped..]);
      assert log[..dropped] + log[dropped..] == log;
      cut := |Flat(log[..dropped])|;
      forall i | i in files && i > 1 ensures i - 1 in files {
        assert Previous(i) in files;
      }
    }

    /** Nothing is rotated without need: whatever is in a backup, the first message of the next file would not have
      * fitted after it, but fits into a file.
      */
    lemma RotatedOnlyWhenFull(i: nat)
      requires Valid() && rotating && i > 0 && i in files && (i == 1 ==> isOpen)
      ensures i - 1 in history && history[i - 1] != []
      ensures |files[i]| + |history[i - 1][0].msg| > maxBytes && |history[i - 1][0].msg| <= maxBytes
    {
      hide Flat, GoesOn;
      if i > 1 {
        assert Previous(i) in files;
      }
      var j := |pieces| - i;
      assert i in history && history[i - 1] == pieces[j] && history[i] == pieces[j - 1];
      assert Begins(pieces[j - 1], |pieces[j][0].msg|, maxBytes);
    }

    /** A file takes every message that fits into it, or into no file. */
    lemma FilledUp(i: nat, k: nat)
      requires Valid() && rotating && i in history && 0 < k < |history[i]|
      ensures |Flat(history[i][..k])| + |history[i][k].msg| <= maxBytes || |history[i][k].msg| > maxBytes
    {
      hide Flat;
      assert GoesOn(pieces[|pieces| - 1 - i], maxBytes);
    }

    /** As long as all messages together fit into one file, there is no backup and the file holds them all. */
    lemma NoBackupYet()
      requires Valid() && isOpen && (rotating ==> Offered(log) <= maxBytes)
      ensures files == map[0 := Flat(log)]
    {
      hide Flat, GoesOn, Cut, Offered;
      if |pieces| > 1 {
        TwoPiecesAreFull(pieces, maxBytes);
      }
      OnePiece(pieces);
      assert forall i :: i in files <==> i == 0;
    }
  }

  lemma DropPrefix<T>(log: seq<T>, dropped: nat, first: seq<T>, rest: seq<T>)
    requires dropped <= |log| && log[dropped..] == first + rest
    ensures dropped + |first| <= |log| && log[dropped + |first|..] == rest
  {
    assert log[dropped + |first|..] == log[dropped..][|first|..];
  }

  lemma FlatNothing()
    ensures Flat([]) == []
  {
  }

  lemma FlatSnoc(ws: seq<Write>, w: Write)
    ensures Flat(ws + [w]) == Flat(ws) + Put(w)
  {
    assert (ws + [w])[..|ws|] == ws;
  }
}
