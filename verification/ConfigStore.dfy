/** How a configuration is kept on disk: `MixAll.string2File` writes a temporary file, copies the
    old file to a backup, deletes the old file and renames. A crash may come between the steps or
    inside a write, and `ConfigManager.load` has to find the last document all the same. */
module ConfigStore {
  import opened Wrappers

  /** The platform: how many bytes beyond the first a character takes in the platform's charset,
      and which strings `decode` accepts without an exception. */
  datatype Platform = Platform(extra: char -> nat, decodes: string -> bool)

  /** The file, its `.bak` and its `.tmp`. */
  datatype Files = Files(main: Option<string>, bak: Option<string>, tmp: Option<string>)

  /** Where `string2File` stops, if it does: in a write, with so many characters written, or
      between two file operations. */
  datatype Crash = InTmp(n: nat) | AfterTmp | InBak(n: nat) | AfterBak | AfterDelete | Never

  datatype Outcome = Loaded(doc: string) | Nothing | Failed

  datatype Event = Event(doc: string, crash: Crash)

  /** What is on disk, and the last document whose rename was done. */
  datatype History = History(files: Files, committed: Option<string>)

  /* ---- Reading ---- */

  /** The length of the file in bytes. */
  function Size(p: Platform, s: string): (n: nat)
    ensures n >= |s|
  {
    if s == [] then 0 else Size(p, s[..|s| - 1]) + 1 + p.extra(s[|s| - 1])
  }

  /** `file2String`: nothing unless as many characters were read as the file has bytes. */
  function Read(p: Platform, file: Option<string>): Option<string> {
    if file.Some? && |file.value| == Size(p, file.value) then file else None
  }

  ghost predicate OneBytePerChar(p: Platform, s: string) {
    forall i :: 0 <= i < |s| ==> p.extra(s[i]) == 0
  }

  lemma {:induction false} ReadsBack(p: Platform, s: string)
    ensures Read(p, Some(s)) == Some(s) <==> OneBytePerChar(p, s)
    decreases |s|
  {
    if s != [] {
      var init := s[..|s| - 1];
      ReadsBack(p, init);
      assert forall i :: 0 <= i < |init| ==> s[i] == init[i];
    }
  }

  function BackupOutcome(p: Platform, f: Files): Outcome {
    match Read(p, f.bak)
    case None => Nothing
    case Some(s) => if s == [] then Nothing else if p.decodes(s) then Loaded(s) else Failed
  }

  function LoadOutcome(p: Platform, f: Files): Outcome {
    match Read(p, f.main)
    case None => BackupOutcome(p, f)
    case Some(s) => if s != [] && p.decodes(s) then Loaded(s) else BackupOutcome(p, f)
  }

  /* ---- Writing ---- */

  /** What a write leaves in the file when it stops after `n` characters. */
  function Prefix(s: string, n: nat): string {
    if n < |s| then s[..n] else s
  }

  function WriteTmp(f: Files, s: string): Files {
    f.(tmp := Some(s))
  }

  /** The backup of the old file, or the first `n` characters of it. */
  function WriteBak(p: Platform, f: Files, n: Option<nat>): Files {
    match Read(p, f.main)
    case None => f
    case Some(prev) => f.(bak := Some(if n.Some? then Prefix(prev, n.value) else prev))
  }

  function Delete(f: Files): Files {
    f.(main := None)
  }

  function Rename(f: Files): Files {
    f.(main := f.tmp, tmp := None)
  }

  /** `string2File`, up to the crash. */
  function AfterPersist(p: Platform, f: Files, doc: string, crash: Crash): Files {
    match crash
    case InTmp(n) => WriteTmp(f, Prefix(doc, n))
    case AfterTmp => WriteTmp(f, doc)
    case InBak(n) => WriteBak(p, WriteTmp(f, doc), Some(n))
    case AfterBak => WriteBak(p, WriteTmp(f, doc), None)
    case AfterDelete => Delete(WriteBak(p, WriteTmp(f, doc), None))
    case Never => Rename(Delete(WriteBak(p, WriteTmp(f, doc), None)))
  }

  /* ---- Runs ---- */

  /** Before the first `persist` there may be a file; there is no backup without one. */
  predicate Initial(f: Files) {
    f.main.None? ==> f.bak.None?
  }

  function Run(p: Platform, start: Files, events: seq<Event>): History {
    if events == [] then History(start, start.main) else
      var h := Run(p, start, events[..|events| - 1]);
      var e := events[|events| - 1];
      History(AfterPersist(p, h.files, e.doc, e.crash), if e.crash.Never? then Some(e.doc) else h.committed)
  }

  /** The file is the committed document; when it is missing, the backup is, if it could be made. */
  ghost predicate Inv(p: Platform, h: History) {
    if h.files.main.Some? then h.committed == h.files.main
    else if h.committed.None? then h.files.bak.None?
    else OneBytePerChar(p, h.committed.value) ==> h.files.bak == h.committed
  }

  lemma {:induction false} StepKeeps(p: Platform, h: History, doc: string, crash: Crash)
    requires Inv(p, h)
    ensures Inv(p, History(AfterPersist(p, h.files, doc, crash), if crash.Never? then Some(doc) else h.committed))
  {
    if h.files.main.Some? {
      ReadsBack(p, h.files.main.value);
    }
  }

  lemma {:induction false} EveryRunKeeps(p: Platform, start: Files, events: seq<Event>)
    requires Initial(start)
    ensures Inv(p, Run(p, start, events))
    decreases |events|
  {
    if events != [] {
      var e := events[|events| - 1];
      EveryRunKeeps(p, start, events[..|events| - 1]);
      StepKeeps(p, Run(p, start, events[..|events| - 1]), e.doc, e.crash);
    }
  }

  /** The documents that survive: not empty, one byte for each character, and decodable. */
  ghost predicate Survives(p: Platform, doc: string) {
    doc != [] && OneBytePerChar(p, doc) && p.decodes(doc)
  }

  /** What `load` decodes always is a document of that kind. */
  lemma {:induction false} OnlySurvivorsAreLoaded(p: Platform, f: Files, doc: string)
    requires LoadOutcome(p, f) == Loaded(doc)
    ensures Survives(p, doc) && (f.main == Some(doc) || f.bak == Some(doc))
  {
    ReadsBack(p, doc);
  }

  /** There is a document in this file that survives. */
  ghost predicate Holds(p: Platform, file: Option<string>) {
    file.Some? && Survives(p, file.value)
  }

  /** What is in the backup can be read, but is no document. */
  ghost predicate Spoilt(p: Platform, file: Option<string>) {
    file.Some? && file.value != [] && OneBytePerChar(p, file.value) && !p.decodes(file.value)
  }

  /** `load` takes the document of the file, or else that of the backup; it fails just when the file holds
      none and the backup is spoilt, and otherwise leaves the manager as it was. */
  lemma LoadMeans(p: Platform, f: Files)
    ensures LoadOutcome(p, f) ==
      if Holds(p, f.main) then Loaded(f.main.value)
      else if Holds(p, f.bak) then Loaded(f.bak.value)
      else if Spoilt(p, f.bak) then Failed
      else Nothing
  {
    if f.main.Some? {
      ReadsBack(p, f.main.value);
    }
    if f.bak.Some? {
      ReadsBack(p, f.bak.value);
    }
  }

  /** Crash safety. After any sequence of `persist` calls, wherever each of them crashed, `load`
      succeeds with the last committed document just when that document survives; before the first
      commit it succeeds and leaves the manager as it was. */
  lemma {:induction false} CrashSafety(p: Platform, start: Files, events: seq<Event>)
    requires Initial(start)
    ensures var h := Run(p, start, events);
      match h.committed
      case None => LoadOutcome(p, h.files) == Nothing
      case Some(doc) => LoadOutcome(p, h.files) == Loaded(doc) <==> Survives(p, doc)
  {
    var h := Run(p, start, events);
    EveryRunKeeps(p, start, events);
    if h.committed.Some? {
      var doc := h.committed.value;
      ReadsBack(p, doc);
      if LoadOutcome(p, h.files) == Loaded(doc) {
        OnlySurvivorsAreLoaded(p, h.files, doc);
      }
    }
  }

  /** So with good documents only, `load` never fails. */
  lemma {:induction false} LoadNeverFails(p: Platform, start: Files, events: seq<Event>)
    requires Initial(start) && (start.main.Some? ==> Survives(p, start.main.value))
    requires forall i :: 0 <= i < |events| ==> Survives(p, events[i].doc)
    ensures var h := Run(p, start, events);
      LoadOutcome(p, h.files) == (match h.committed case None => Nothing case Some(doc) => Loaded(doc))
  {
    CrashSafety(p, start, events);
    CommittedIsOneOf(p, start, events);
  }

  lemma {:induction false} CommittedIsOneOf(p: Platform, start: Files, events: seq<Event>)
    ensures var c := Run(p, start, events).committed;
      c == start.main || exists i :: 0 <= i < |events| && events[i].crash.Never? && c == Some(events[i].doc)
    decreases |events|
  {
    if events != [] {
      var n := |events| - 1;
      CommittedIsOneOf(p, start, events[..n]);
      if !events[n].crash.Never? && Run(p, start, events[..n]).committed != start.main {
        var i :| 0 <= i < n && events[..n][i].crash.Never? &&
          Run(p, start, events[..n]).committed == Some(events[..n][i].doc);
        assert events[i] == events[..n][i];
      }
    }
  }

  /** The documents that may ever be loaded whole: what was there at the start, and what was committed. */
  ghost predicate WasWhole(start: Files, events: seq<Event>, doc: string) {
    start.main == Some(doc) || start.bak == Some(doc) ||
    exists i :: 0 <= i < |events| && events[i].crash.Never? && events[i].doc == doc
  }

  /** No part of the document passes for a document where the whole does not. */
  ghost predicate TearSafe(p: Platform, doc: string) {
    OneBytePerChar(p, doc) && !p.decodes(doc) ==> forall n :: 0 < n < |doc| ==> !p.decodes(doc[..n])
  }

  /** What lies in the two files: the backup is whole, or it is a part of the file, which can be read. */
  ghost predicate BackupInv(p: Platform, start: Files, events: seq<Event>, f: Files) {
    && (f.main.Some? ==> WasWhole(start, events, f.main.value))
    && (f.bak.Some? ==>
         WasWhole(start, events, f.bak.value) ||
         (f.main.Some? && Read(p, f.main) == f.main && f.bak.value <= f.main.value))
  }

  lemma WasWholeBefore(start: Files, events: seq<Event>, e: Event)
    ensures forall doc :: WasWhole(start, events, doc) ==> WasWhole(start, events + [e], doc)
    ensures e.crash.Never? ==> WasWhole(start, events + [e], e.doc)
  {
    forall doc | WasWhole(start, events, doc) ensures WasWhole(start, events + [e], doc) {
      if i :| 0 <= i < |events| && events[i].crash.Never? && events[i].doc == doc {
        assert (events + [e])[i] == events[i];
      }
    }
    assert (events + [e])[|events|] == e;
  }

  lemma {:induction false} BackupKept(p: Platform, start: Files, events: seq<Event>)
    ensures BackupInv(p, start, events, Run(p, start, events).files)
    decreases |events|
  {
    if events != [] {
      var before, e := events[..|events| - 1], events[|events| - 1];
      BackupKept(p, start, before);
      WasWholeBefore(start, before, e);
      assert before + [e] == events;
    }
  }

  /** So whatever `load` yields was there at the start or was committed, and is loaded in full. */
  lemma WholeIsLoaded(p: Platform, start: Files, events: seq<Event>, doc: string)
    requires forall d :: WasWhole(start, events, d) ==> TearSafe(p, d)
    requires LoadOutcome(p, Run(p, start, events).files) == Loaded(doc)
    ensures WasWhole(start, events, doc)
  {
    var f := Run(p, start, events).files;
    BackupKept(p, start, events);
    if f.main.Some? {
      ReadsBack(p, f.main.value);
    }
  }

  /** And this is exactly what it takes: after one commit, and a crash while its backup is written, a
      torn document may be loaded just when part of it passes for a document and the whole does not. */
  lemma TornBackup(p: Platform, first: string, second: string)
    ensures TearSafe(p, first) <==> forall n ::
      var f := Run(p, Files(None, None, None), [Event(first, Never), Event(second, InBak(n))]).files;
      LoadOutcome(p, f).Loaded? ==> LoadOutcome(p, f).doc == first
  {
    forall n: nat ensures Run(p, Files(None, None, None), [Event(first, Never), Event(second, InBak(n))]).files
      == WriteBak(p, Files(Some(first), None, Some(second)), Some(n))
    {
      TwoEvents(p, first, second, n);
    }
    ReadsBack(p, first);
    if n :| OneBytePerChar(p, first) && !p.decodes(first) && 0 < n < |first| && p.decodes(first[..n]) {
      ReadsBack(p, first[..n]);
      var f := Files(Some(first), Some(first[..n]), Some(second));
      assert LoadOutcome(p, f) == Loaded(first[..n]);
      assert WriteBak(p, Files(Some(first), None, Some(second)), Some(n)) == f;
    }
  }

  lemma TwoEvents(p: Platform, first: string, second: string, n: nat)
    ensures Run(p, Files(None, None, None), [Event(first, Never), Event(second, InBak(n))]).files
      == WriteBak(p, Files(Some(first), None, Some(second)), Some(n))
  {
    var start, e, f := Files(None, None, None), Event(first, Never), Event(second, InBak(n));
    assert [e][..0] == [] && [e, f][..1] == [e];
    assert Run(p, start, []).files == start;
    assert Run(p, start, [e]).files == Files(Some(first), None, None);
  }

  /** A document with a wide character is committed, but `load` brings back the one before it. */
  lemma {:induction false} WideDocumentIsLost(p: Platform)
    requires p.extra('a') == 0 && p.extra('\U{4E2D}') > 0 && p.decodes("a")
    ensures var h := Run(p, Files(None, None, None), [Event("a", Never), Event("\U{4E2D}", Never)]);
      h.committed == Some("\U{4E2D}") && LoadOutcome(p, h.files) == Loaded("a")
  {
    var start := Files(None, None, None);
    var first, second := Event("a", Never), Event("\U{4E2D}", Never);
    assert [first][..0] == [] && [first, second][..1] == [first];
    assert Run(p, start, []).files == start;
    assert Run(p, start, [first]).files == Files(Some("a"), None, None);
    SizeOfOne(p, 'a');
    SizeOfOne(p, '\U{4E2D}');
    assert Run(p, start, [first, second]).files == Files(Some("\U{4E2D}"), Some("a"), None);
  }

  lemma {:induction false} SizeOfOne(p: Platform, c: char)
    ensures Size(p, [c]) == 1 + p.extra(c)
  {
    assert [c][..0] == [] && Size(p, []) == 0;
  }

  /* ---- The manager ---- */

  class ConfigManager {
    const platform: Platform
    const fileName: string
    /** The directory: the contents of the files that exist. */
    var disk: map<string, string>
    /** The document that the manager's state was last decoded from. */
    var state: Option<string>

    constructor (platform: Platform, fileName: string, disk: map<string, string>)
      ensures this.platform == platform && this.fileName == fileName && this.disk == disk && state == None
    {
      this.platform, this.fileName, this.disk := platform, fileName, disk;
      state := None;
    }

    function Get(name: string): Option<string>
      reads this
    {
      if name in disk then Some(disk[name]) else None
    }

    function Contents(): Files
      reads this
    {
      Files(Get(fileName), Get(fileName + ".bak"), Get(fileName + ".tmp"))
    }

    lemma NamesDiffer()
      ensures fileName != fileName + ".bak" && fileName != fileName + ".tmp" && fileName + ".bak" != fileName + ".tmp"
    {
      assert (fileName + ".bak")[|fileName| + 1] == 'b' && (fileName + ".tmp")[|fileName| + 1] == 't';
    }

    /** Writes the file; the write may stop after `stop` characters. */
    method String2FileNotSafe(str: string, name: string, stop: Option<nat>)
      modifies `disk
      ensures disk == old(disk)[name := if stop.Some? then Prefix(str, stop.value) else str]
    {
      disk := disk[name := if stop.Some? then Prefix(str, stop.value) else str];
    }

    method File2String(name: string) returns (s: Option<string>)
      ensures s == Read(platform, Get(name))
    {
      if name !in disk {
        return None;
      }
      var size := Size(platform, disk[name]);
      s := if |disk[name]| == size then Some(disk[name]) else None;
    }

    method String2File(str: string, crash: Crash)
      modifies `disk
      ensures Contents() == AfterPersist(platform, old(Contents()), str, crash)
      ensures forall name :: name !in {fileName, fileName + ".bak", fileName + ".tmp"} ==> Get(name) == old(Get(name))
    {
      NamesDiffer();
      String2FileNotSafe(str, fileName + ".tmp", if crash.InTmp? then Some(crash.n) else None);
      if crash.InTmp? || crash.AfterTmp? {
        return;
      }
      var prevContent := File2String(fileName);
      if prevContent.Some? {
        String2FileNotSafe(prevContent.value, fileName + ".bak", if crash.InBak? then Some(crash.n) else None);
      }
      if crash.InBak? || crash.AfterBak? {
        return;
      }
      disk := disk - {fileName};
      if crash.AfterDelete? {
        return;
      }
      disk := disk[fileName := disk[fileName + ".tmp"]] - {fileName + ".tmp"};
    }

    /** `persist`, given what `encode` returns. */
    method Persist(json: Option<string>, crash: Crash)
      modifies `disk
      ensures Contents() ==
        if json.None? then old(Contents()) else AfterPersist(platform, old(Contents()), json.value, crash)
    {
      if json.Some? {
        String2File(json.value, crash);
      }
    }

    method LoadBak() returns (ok: bool)
      modifies `state
      ensures var outcome := BackupOutcome(platform, Contents());
        ok == !outcome.Failed? && state == if outcome.Loaded? then Some(outcome.doc) else old(state)
    {
      var json := File2String(fileName + ".bak");
      if json.Some? && |json.value| > 0 {
        if !platform.decodes(json.value) {
          return false;
        }
        state := json;
      }
      return true;
    }

    method Load() returns (ok: bool)
      modifies `state
      ensures var outcome := LoadOutcome(platform, Contents());
        ok == !outcome.Failed? && state == if outcome.Loaded? then Some(outcome.doc) else old(state)
      ensures var main, bak := Get(fileName), Get(fileName + ".bak");
        !ok <==> !Holds(platform, main) && Spoilt(platform, bak)
    {
      LoadMeans(platform, Contents());
      var json := File2String(fileName);
      if json.None? || |json.value| == 0 {
        ok := LoadBak();
      } else if platform.decodes(json.value) {
        state := json;
        ok := true;
      } else {
        ok := LoadBak();
      }
    }
  }
}
