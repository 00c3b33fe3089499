/** The writer: messages go length-framed into files, files into run directories; both rotate by
    size, and every start of a run takes a new directory. */
module Writer {
  import opened Bytes
  import opened Framing
  import opened RunControl

  datatype File = File(dir: nat, id: nat, content: seq<Byte>)

  datatype DirStatus = DIR_OK | DIR_EXISTS

  datatype Report = Report(inBytes: nat, inEvents: nat, outBytes: nat, outEvents: nat)

  // ----- the run number -----

  /** The name contains the tag somewhere. */
  predicate Contains(name: string, tag: string) {
    exists i :: 0 <= i <= |name| && tag <= name[i..]
  }

  /** The largest of the configured number and the numbers of the run directories found. */
  function MaxRunid(dirid: nat, runtag: string, entries: seq<string>): nat {
    if entries == [] then dirid
    else
      var n := |entries| - 1;
      var max := MaxRunid(dirid, runtag, entries[..n]);
      var id := ScanId(entries[n]);
      if Contains(entries[n], runtag) && id != [] && id[0] > max then id[0] else max
  }

  /** Containing a tag is standing around it. */
  lemma ContainsExact(name: string, tag: string)
    ensures Contains(name, tag) <==> exists a, b :: name == a + tag + b
  {
    if Contains(name, tag) {
      var i :| 0 <= i <= |name| && tag <= name[i..];
      assert name == name[..i] + tag + name[i + |tag|..];
    }
    forall a, b | name == a + tag + b
      ensures Contains(name, tag)
    {
      assert name[|a|..] == tag + b;
    }
  }

  /** It is the least number that bounds the configured one and every number found: one of them. */
  lemma {:induction false} MaxRunidBounds(dirid: nat, runtag: string, entries: seq<string>)
    ensures MaxRunid(dirid, runtag, entries) >= dirid
    ensures forall e :: e in entries && Contains(e, runtag) && ScanId(e) != [] ==>
      ScanId(e)[0] <= MaxRunid(dirid, runtag, entries)
    ensures var max := MaxRunid(dirid, runtag, entries);
            max != dirid ==> exists e :: e in entries && Contains(e, runtag) && ScanId(e) == [max]
    decreases |entries|
  {
    hide ScanId, Contains;
    if entries != [] {
      var n := |entries| - 1;
      MaxRunidBounds(dirid, runtag, entries[..n]);
      assert entries == entries[..n] + [entries[n]];
      assert forall e :: e in entries[..n] ==> e in entries;
      assert entries[n] in entries;
    }
  }

  /** With a scannable tag, every run directory on disk has a smaller number than the next one. */
  lemma RunidIsFresh(dirid: nat, runtag: string, entries: seq<string>, n: nat)
    requires Scannable(runtag) && DirName(runtag, n) in entries
    ensures n <= MaxRunid(dirid, runtag, entries)
  {
    hide MaxRunid, ScanId, DirName;
    var name := DirName(runtag, n);
    ScanOfDirName(runtag, n);
    MaxRunidBounds(dirid, runtag, entries);
    assert runtag <= name[0..] by { NameStartsWithTag(runtag, n); }
  }

  lemma NameStartsWithTag(runtag: string, n: nat)
    ensures runtag <= DirName(runtag, n)[0..]
  {}

  // ----- sizes -----

  function Total(ms: seq<Message>): nat {
    if ms == [] then 0 else Total(ms[..|ms| - 1]) + |ms[|ms| - 1]|
  }

  lemma TotalSnoc(ms: seq<Message>, m: Message)
    ensures Total(ms + [m]) == Total(ms) + |m|
  {
    assert (ms + [m])[..|ms|] == ms;
  }

  /** Without its last message the collection is within the limit. */
  predicate Within(ms: seq<Message>, limit: nat) {
    ms == [] || Total(ms[..|ms| - 1]) <= limit
  }

  lemma WithinSnoc(ms: seq<Message>, m: Message, limit: nat)
    requires Total(ms) <= limit
    ensures Within(ms + [m], limit)
  {
    assert (ms + [m])[..|ms|] == ms;
  }

  lemma EmptyFile(limit: nat)
    ensures Frames([]) == [] && Within([], limit)
  {}

  /** The messages of a directory, file after file. */
  function DirMessages(files: seq<File>, stored: seq<seq<Message>>, d: nat): seq<Message>
    requires |files| == |stored|
  {
    if files == [] then []
    else
      var n := |files| - 1;
      DirMessages(files[..n], stored[..n], d) + if files[n].dir == d then stored[n] else []
  }

  function Flatten(stored: seq<seq<Message>>): seq<Message> {
    if stored == [] then [] else Flatten(stored[..|stored| - 1]) + stored[|stored| - 1]
  }

  /** The last file with one more framed message at its end. */
  function LastExtended(files: seq<File>, m: Message): (r: seq<File>)
    requires files != []
    ensures |r| == |files| && r[|r| - 1].dir == files[|files| - 1].dir
  {
    var f := files[|files| - 1];
    files[|files| - 1 := f.(content := f.content + Frame(m))]
  }

  /** Reading all files in the order of their creation. */
  function ReadBack(files: seq<File>): seq<Message> {
    if files == [] then [] else ReadBack(files[..|files| - 1]) + Unframe(files[|files| - 1].content)
  }

  /** Of each file the messages in front of its first empty one. */
  function Readable(stored: seq<seq<Message>>): seq<Message> {
    if stored == [] then [] else Readable(stored[..|stored| - 1]) + BeforeEmpty(stored[|stored| - 1])
  }

  lemma {:induction false} ReadBackReadable(files: seq<File>, stored: seq<seq<Message>>)
    requires |files| == |stored|
    requires forall k :: 0 <= k < |files| ==> files[k].content == Frames(stored[k])
    requires forall k, m :: 0 <= k < |stored| && m in stored[k] ==> Framable(m)
    ensures ReadBack(files) == Readable(stored)
    decreases |files|
  {
    hide Unframe, Frames, Framable, BeforeEmpty;
    if files != [] {
      var n := |files| - 1;
      ReadBackReadable(files[..n], stored[..n]);
      assert files[n].content == Frames(stored[n]);
      UnframeBeforeEmpty(stored[n]);
    }
  }

  lemma {:induction false} ReadableIsAll(stored: seq<seq<Message>>)
    ensures |Readable(stored)| <= |Flatten(stored)|
    ensures Readable(stored) == Flatten(stored) <==> |Readable(stored)| == |Flatten(stored)|
    ensures Readable(stored) == Flatten(stored) <==> [] !in Flatten(stored)
    decreases |stored|
  {
    hide BeforeEmpty;
    if stored != [] {
      var n := |stored| - 1;
      ReadableIsAll(stored[..n]);
      BeforeEmptyIsAll(stored[n]);
    }
  }

  /** Files that hold frames are read back to the stored messages, none split, exactly when no
      message is empty; an empty one hides the rest of its file. */
  lemma ReadBackStored(files: seq<File>, stored: seq<seq<Message>>)
    requires |files| == |stored|
    requires forall k :: 0 <= k < |files| ==> files[k].content == Frames(stored[k])
    requires forall k, m :: 0 <= k < |stored| && m in stored[k] ==> Framable(m)
    ensures ReadBack(files) == Readable(stored)
    ensures ReadBack(files) == Flatten(stored) <==> [] !in Flatten(stored)
  {
    hide ReadBack, Readable, Flatten, Frames, Framable;
    ReadBackReadable(files, stored);
    ReadableIsAll(stored);
  }

  /** Appending one message to the last file. */
  lemma LastFileGrows(files: seq<File>, stored: seq<seq<Message>>, f: File, m: Message, d: nat)
    requires |files| == |stored| > 0
    requires f.dir == files[|files| - 1].dir
    ensures var n := |files| - 1;
            var files', stored' := files[n := f], stored[n := stored[n] + [m]];
            && Flatten(stored') == Flatten(stored) + [m]
            && DirMessages(files', stored', d) == DirMessages(files, stored, d) + if f.dir == d then [m] else []
  {
    var n := |files| - 1;
    var files', stored' := files[n := f], stored[n := stored[n] + [m]];
    assert files'[..n] == files[..n] && stored'[..n] == stored[..n];
    assert Flatten(stored[..n]) + (stored[n] + [m]) == Flatten(stored) + [m];
    var before := DirMessages(files[..n], stored[..n], d);
    assert before + (stored[n] + [m]) == before + stored[n] + [m];
    assert before + [] + [] == before + [];
  }

  lemma NothingInDirectory(d: nat)
    ensures Total(DirMessages([], [], d)) == 0 && Total([]) == 0
  {}

  lemma NewFileAdds(files: seq<File>, stored: seq<seq<Message>>, f: File, d: nat)
    requires |files| == |stored|
    ensures Flatten(stored + [[]]) == Flatten(stored)
    ensures DirMessages(files + [f], stored + [[]], d) == DirMessages(files, stored, d)
  {
    assert (files + [f])[..|files|] == files && (stored + [[]])[..|stored|] == stored;
    assert Flatten(stored) + [] == Flatten(stored);
    assert DirMessages(files, stored, d) + [] == DirMessages(files, stored, d);
  }

  lemma {:induction false} UnusedDirectory(files: seq<File>, stored: seq<seq<Message>>, d: nat)
    requires |files| == |stored| && forall f :: f in files ==> f.dir != d
    ensures DirMessages(files, stored, d) == []
    decreases |files|
  {
    if files != [] {
      UnusedDirectory(files[..|files| - 1], stored[..|files| - 1], d);
    }
  }

  // ----- a history of the writer -----

  datatype Step = Message(m: Message) | SetState(s: RCstate) | SetStoring(b: bool)

  /** The run control state and the storing mode after the steps. */
  function Modes(s: RCstate, store: bool, steps: seq<Step>): (RCstate, bool) {
    if steps == [] then (s, store)
    else
      var (s', store') := Modes(s, store, steps[..|steps| - 1]);
      match steps[|steps| - 1]
      case Message(_) => (s', store')
      case SetState(x) => (x, store')
      case SetStoring(b) => (s', b)
  }

  /** The messages that arrive while running with storing on. */
  function Kept(s: RCstate, store: bool, steps: seq<Step>): seq<Message> {
    if steps == [] then []
    else
      var n := |steps| - 1;
      var before := Kept(s, store, steps[..n]);
      if steps[n].Message? && Modes(s, store, steps[..n]) == (RUNNING, true) then before + [steps[n].m] else before
  }

  lemma KeptSnoc(s: RCstate, store: bool, steps: seq<Step>, i: nat)
    requires i < |steps|
    ensures steps[..i + 1][..i] == steps[..i] && steps[..i + 1][i] == steps[i] && |steps[..i + 1]| == i + 1
  {}

  lemma {:induction false} FlattenMembers(stored: seq<seq<Message>>)
    ensures forall k, m :: 0 <= k < |stored| && m in stored[k] ==> m in Flatten(stored)
    decreases |stored|
  {
    if stored != [] {
      FlattenMembers(stored[..|stored| - 1]);
    }
  }

  // ----- the writer -----

  class FzWriter {
    const runtag: string
    const eventFileSize: nat
    const eventDirSize: nat
    var esize: nat
    var dsize: nat
    var fileid: nat
    var dirid: nat
    var firstrun: bool
    var startNewdir: bool
    var store: bool
    var rcstate: RCstate
    var report: Report
    /** The number of the current run directory, and of all those taken so far. */
    var curdir: nat
    var dirs: seq<nat>
    /** The names of the directories on disk. */
    var disk: seq<string>
    /** All files in the order of their creation; the output stream is the last one. */
    var files: seq<File>

    /** The messages each file holds. */
    ghost var stored: seq<seq<Message>>

    ghost predicate Stored()
      reads this
    {
      && |files| == |stored|
      && (forall k :: 0 <= k < |files| ==> files[k].content == Frames(stored[k]))
      && (forall k :: 0 <= k < |files| ==> files[k].dir <= curdir)
      && (forall k :: 0 <= k < |files| ==> Within(stored[k], eventFileSize))
      && (forall d :: Within(DirMessages(files, stored, d), eventDirSize))
    }

    /** Numbers grow, and with a scannable tag no directory on disk has the next number. */
    ghost predicate Numbered()
      reads this
    {
      && !firstrun && dirs != [] && dirs[|dirs| - 1] == curdir && dirid == curdir + 1
      && (forall i, j :: 0 <= i < j < |dirs| ==> dirs[i] < dirs[j])
      && (Scannable(runtag) ==> forall n: nat :: DirName(runtag, n) in disk ==> n < dirid)
    }

    ghost predicate Valid()
      reads this
    {
      && Stored() && Numbered()
      && files != [] && files[|files| - 1].dir == curdir
      && esize == Total(stored[|stored| - 1]) && dsize == Total(DirMessages(files, stored, curdir))
      && esize <= dsize && esize <= eventFileSize && dsize <= eventDirSize
    }

    /** The configured number `id` is raised above every run directory on disk. */
    constructor (runtag: string, id: nat, eventFileSize: nat, eventDirSize: nat, entries: seq<string>)
      ensures Valid() && stored == [[]] && store && startNewdir && rcstate == IDLE
      ensures this.runtag == runtag && this.eventFileSize == eventFileSize && this.eventDirSize == eventDirSize
      ensures dirs == [MaxRunid(id, runtag, entries) + 1]
      ensures Scannable(runtag) ==> DirName(runtag, curdir) !in entries
    {
      this.runtag, this.eventFileSize, this.eventDirSize := runtag, eventFileSize, eventDirSize;
      esize, dsize, fileid := 0, 0, 0;
      dirid, firstrun, startNewdir := id, true, true;
      store, rcstate, report := true, IDLE, Report(0, 0, 0, 0);
      curdir, dirs, disk, files, stored := 0, [], entries, [], [];
      new;
      Allocate();
    }

    /** The first directory and the first file. */
    method Allocate()
      requires firstrun && dirs == [] && files == [] && stored == [] && esize == 0 && dsize == 0
      modifies `firstrun, `dirid, `curdir, `dirs, `disk, `fileid, `files, `stored
      ensures Valid() && stored == [[]]
      ensures dirs == [MaxRunid(old(dirid), runtag, old(disk)) + 1]
      ensures Scannable(runtag) ==> DirName(runtag, curdir) !in old(disk)
    {
      hide MaxRunid, ScanId, DirName, Contains, Frames, Scannable, DirMessages, Within, Flatten;
      NothingStored();
      var status := SetupNewdir();
      SetupNewfile();
      NothingInDirectory(curdir);
    }

    lemma NothingStored()
      requires files == [] && stored == []
      ensures Stored()
    {}

    /** The maximum over the names that contain the tag. A name without a number leaves the
        number of an earlier name in place, which cannot raise the maximum again. */
    method GetMaxRunid() returns (max: nat)
      ensures max == MaxRunid(dirid, runtag, disk)
    {
      var num := dirid;
      max := dirid;
      for i := 0 to |disk|
        invariant max == MaxRunid(dirid, runtag, disk[..i]) && num <= max
      {
        assert disk[..i + 1][..i] == disk[..i];
        if Contains(disk[i], runtag) {
          var id := ScanId(disk[i]);
          if id != [] {
            num := id[0];
          }
          if num > max {
            max := num;
          }
        }
      }
      assert disk[..|disk|] == disk;
    }

    method SetupNewdir() returns (status: DirStatus)
      requires firstrun ==> dirs == []
      requires !firstrun ==> Numbered()
      modifies `firstrun, `dirid, `curdir, `dirs, `disk
      ensures Numbered()
      ensures curdir == (if old(firstrun) then MaxRunid(old(dirid), runtag, old(disk)) + 1 else old(dirid))
      ensures dirs == old(dirs) + [curdir]
      ensures disk == old(disk) + if status == DIR_OK then [DirName(runtag, curdir)] else []
      ensures status == DIR_EXISTS <==> DirName(runtag, curdir) in old(disk)
      ensures Scannable(runtag) ==> status == DIR_OK && DirName(runtag, curdir) !in old(disk)
    {
      hide MaxRunid, ScanId, DirName;
      if firstrun {
        var max := GetMaxRunid();
        forall n: nat | Scannable(runtag) && DirName(runtag, n) in disk
          ensures n < max + 1
        {
          RunidIsFresh(dirid, runtag, disk, n);
        }
        dirid := max + 1;
        firstrun := false;
      }
      curdir := dirid;
      var name := DirName(runtag, dirid);
      status := if name in disk then DIR_EXISTS else DIR_OK;
      if status == DIR_OK {
        disk := disk + [name];
      }
      forall n: nat | Scannable(runtag) && DirName(runtag, n) in disk
        ensures n < dirid + 1
      {
        if DirName(runtag, n) == name {
          ScanOfDirName(runtag, n);
          ScanOfDirName(runtag, dirid);
        }
      }
      dirs := dirs + [curdir];
      dirid := dirid + 1;
    }

    method SetupNewfile()
      requires Stored()
      modifies `fileid, `files, `stored
      ensures Stored() && fileid == old(fileid) + 1
      ensures files == old(files) + [File(curdir, old(fileid), [])] && stored == old(stored) + [[]]
      ensures Flatten(stored) == Flatten(old(stored))
      ensures DirMessages(files, stored, curdir) == DirMessages(old(files), old(stored), curdir)
    {
      hide Frames, DirMessages, Within, Flatten;
      EmptyFile(eventFileSize);
      ghost var files0, stored0 := files, stored;
      files := files + [File(curdir, fileid, [])];
      stored := stored + [[]];
      forall d
        ensures Within(DirMessages(files, stored, d), eventDirSize)
      {
        NewFileAdds(files0, stored0, File(curdir, fileid, []), d);
      }
      NewFileAdds(files0, stored0, File(curdir, fileid, []), curdir);
      fileid := fileid + 1;
    }

    /** Writes the length-framed message at the end of the output stream. */
    method WriteDataset(m: Message)
      requires Valid()
      modifies `files, `stored
      ensures Stored() && files == LastExtended(old(files), m)
      ensures Flatten(stored) == Flatten(old(stored)) + [m]
      ensures Total(stored[|stored| - 1]) == esize + |m|
      ensures Total(DirMessages(files, stored, curdir)) == dsize + |m|
    {
      hide Frame, DirMessages, Flatten, Total;
      var n := |files| - 1;
      ghost var files0, stored0 := files, stored;
      var f := files[n].(content := files[n].content + Frame(m));
      files := files[n := f];
      stored := stored[n := stored[n] + [m]];
      FramesSnoc(stored0[n], m);
      TotalSnoc(stored0[n], m);
      WithinSnoc(stored0[n], m, eventFileSize);
      TotalSnoc(DirMessages(files0, stored0, curdir), m);
      WithinSnoc(DirMessages(files0, stored0, curdir), m, eventDirSize);
      forall d
        ensures Within(DirMessages(files, stored, d), eventDirSize)
      {
        LastFileGrows(files0, stored0, f, m, d);
        assert DirMessages(files0, stored0, d) + [] == DirMessages(files0, stored0, d);
      }
      LastFileGrows(files0, stored0, f, m, curdir);
    }

    /** A new directory with a new file in it. */
    method Rotate()
      requires Stored() && Numbered()
      modifies `firstrun, `dirid, `curdir, `dirs, `disk, `fileid, `files, `stored, `esize, `dsize
      ensures Valid() && Flatten(stored) == Flatten(old(stored))
      ensures curdir == old(dirid) && dirs == old(dirs) + [curdir]
      ensures files == old(files) + [File(curdir, old(fileid), [])] && esize == 0 && dsize == 0
      ensures Scannable(runtag) ==> DirName(runtag, curdir) !in old(disk)
    {
      hide MaxRunid, ScanId, DirName, Contains, Frames, Scannable, DirMessages, Within, Flatten;
      var status := SetupNewdir();
      SetupNewfile();
      esize, dsize := 0, 0;
      UnusedDirectory(old(files), old(stored), curdir);
      NothingInDirectory(curdir);
    }

    /** Stores one message and rotates the file or the directory when its limit is passed. */
    method Store(m: Message)
      requires Valid()
      modifies `firstrun, `dirid, `curdir, `dirs, `disk, `fileid, `files, `stored, `esize, `dsize
      ensures Valid() && Flatten(stored) == Flatten(old(stored)) + [m]
      ensures dirs == old(dirs) + if old(dsize) + |m| > eventDirSize then [old(dirid)] else []
      ensures var full := old(esize) + |m| > eventFileSize || old(dsize) + |m| > eventDirSize;
              && files == LastExtended(old(files), m) + (if full then [File(curdir, old(fileid), [])] else [])
              && esize == (if full then 0 else old(esize) + |m|)
              && dsize == (if old(dsize) + |m| > eventDirSize then 0 else old(dsize) + |m|)
    {
      hide Frames, DirMessages, Within, Flatten, DirName, Scannable, Total, LastExtended;
      WriteDataset(m);
      esize := esize + |m|;
      dsize := dsize + |m|;
      if dsize > eventDirSize {
        Rotate();
      } else if esize > eventFileSize {
        SetupNewfile();
        esize := 0;
        NothingInDirectory(curdir);
      }
    }

    /** One message: counted, and stored when storing is on. */
    method Receive(m: Message)
      requires Valid()
      modifies this
      ensures Valid() && rcstate == old(rcstate) && store == old(store) && startNewdir == old(startNewdir)
      ensures rcstate != RUNNING || !store ==> files == old(files) && dirs == old(dirs) && stored == old(stored)
      ensures rcstate == RUNNING && store ==> Flatten(stored) == Flatten(old(stored)) + [m]
      ensures rcstate == RUNNING && store ==>
        dirs == old(dirs) + if old(dsize) + |m| > eventDirSize then [old(dirid)] else []
      ensures rcstate == RUNNING ==>
        report.inEvents == old(report).inEvents + 1 && report.inBytes == old(report).inBytes + |m|
      ensures report.outEvents == old(report).outEvents + if rcstate == RUNNING && store then 1 else 0
      ensures report.outBytes == old(report).outBytes + if rcstate == RUNNING && store then |m| else 0
    {
      hide Frames, DirMessages, Within, Flatten, DirName, Scannable, Total;
      if rcstate == RUNNING {
        report := report.(inBytes := report.inBytes + |m|, inEvents := report.inEvents + 1);
        if store {
          Store(m);
          report := report.(outBytes := report.outBytes + |m|, outEvents := report.outEvents + 1);
        }
      }
    }

    /** A change of the run control state; a start takes a new directory, but for the first one. */
    method SetRcstate(s: RCstate)
      requires Valid()
      modifies this
      ensures Valid() && rcstate == s && store == old(store) && Flatten(stored) == Flatten(old(stored))
      ensures var starts := (old(rcstate) == PAUSED || old(rcstate) == READY) && s == RUNNING;
              && startNewdir == (old(startNewdir) && !starts)
              && dirs == old(dirs) + (if starts && !old(startNewdir) && store then [old(dirid)] else [])
              && (!(starts && !old(startNewdir) && store) ==> files == old(files))
    {
      hide Frames, DirMessages, Within, Flatten, DirName, Scannable, Total;
      if (rcstate == PAUSED || rcstate == READY) && s == RUNNING {
        if !startNewdir {
          if store {
            Rotate();
          }
        }
        startNewdir := false;
      }
      rcstate := s;
    }

    method SetStore(value: bool)
      requires Valid()
      modifies `store
      ensures Valid() && store == value
    {
      store := value;
    }

    /** The writer's thread and its callers as one sequence of atomic steps: reading all files
        back gives exactly the messages that arrived while running with storing on, unless one of
        them was empty. */
    method Process(steps: seq<Step>)
      requires Valid()
      requires (forall m :: m in Flatten(stored) ==> Framable(m)) && forall m :: Message(m) in steps ==> Framable(m)
      modifies this
      ensures Valid()
      ensures Flatten(stored) == Flatten(old(stored)) + Kept(old(rcstate), old(store), steps)
      ensures ReadBack(files) == Readable(stored)
      ensures ReadBack(files) == Flatten(stored) <==> [] !in Flatten(stored)
    {
      hide Frames, DirMessages, Within, Total, Framable, Readable, ReadBack;
      assert Flatten(stored) + [] == Flatten(stored);
      for i := 0 to |steps|
        invariant Valid() && (rcstate, store) == Modes(old(rcstate), old(store), steps[..i])
        invariant Flatten(stored) == Flatten(old(stored)) + Kept(old(rcstate), old(store), steps[..i])
        invariant forall m :: m in Flatten(stored) ==> Framable(m)
      {
        KeptSnoc(old(rcstate), old(store), steps, i);
        match steps[i] {
          case Message(m) => Receive(m);
          case SetState(s) => SetRcstate(s);
          case SetStoring(b) => SetStore(b);
        }
      }
      assert steps[..|steps|] == steps;
      FlattenMembers(stored);
      ReadBackStored(files, stored);
    }
  }
}
