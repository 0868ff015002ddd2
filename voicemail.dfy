/**
 * The voicemail endpoints. Before the list and the statistics are read, the
 * Asterisk spool directory is synchronised into the `voicemail_records`
 * table: each message info file of the INBOX and Old folders that is not
 * yet recorded, and that has an audio file beside it, becomes a row. Marking
 * as read and deleting work on one row. The spool directory is an input
 * value (listings, readable info texts); deleting reports the files it
 * removes.
 */
module Voicemail {
  import opened Wrappers
  import opened Text
  import opened Sql
  import Ordering

  datatype VoicemailRecord = VoicemailRecord(
    id: int, mailbox: string, callerId: string, duration: int, date: int,
    isRead: bool, filePath: string, folder: string, msgId: string)

  // ---------------------------------------------------------------- info files

  predicate NotEquals(c: char) { c != '=' }

  /**
   * One line of an info file: a line holding a `=` gives
   * `line.strip().split('=', 1)`, any other line nothing.
   */
  function LineEntry(line: string): (e: Option<(string, string)>)
    ensures e.Some? <==> '=' in line
    ensures e.Some? ==> Strip(line) == e.value.0 + "=" + e.value.1 && '=' !in e.value.0
  {
    if '=' !in line then None
    else
      var s := Strip(line);
      StripKeepsEquals(line);
      var i := Run(s, 0, NotEquals);
      RunStopsAtEquals(s, i);
      Some((s[..i], s[i + 1..]))
  }

  /** Stripping removes only white space, so the `=` survives. */
  lemma {:induction false} StripKeepsEquals(line: string)
    requires '=' in line
    ensures '=' in Strip(line)
  {
    var s := Strip(line);
    var k :| 0 <= k < |line| && line[k] == '=';
    var a := StripStart(line);
    assert !IsSpace(line[k]);
    assert a <= k < a + |s|;
    assert s[k - a] == '=';
  }

  /** The scan for the first `=` of a text that has one stops at it. */
  lemma {:induction false} RunStopsAtEquals(s: string, i: nat)
    requires '=' in s && i <= |s|
    requires forall k :: 0 <= k < i ==> NotEquals(s[k])
    requires i < |s| ==> !NotEquals(s[i])
    ensures i < |s| && s[i] == '=' && '=' !in s[..i]
    ensures s == s[..i] + "=" + s[i + 1..]
  {
    var k :| 0 <= k < |s| && s[k] == '=';
    assert k >= i;
  }

  /** The line sets the key. */
  predicate Defines(line: string, key: string) {
    LineEntry(line).Some? && LineEntry(line).value.0 == key
  }

  /** The dictionary the info file's lines build, later keys overwriting earlier ones. */
  function InfoOf(lines: seq<string>): map<string, string> {
    if lines == [] then map[]
    else
      var info := InfoOf(lines[..|lines| - 1]);
      match LineEntry(lines[|lines| - 1])
      case None => info
      case Some(kv) => info[kv.0 := kv.1]
  }

  /** Reading in text mode with universal newlines: "\r\n" and a lone '\r' each read as '\n'. */
  function UniversalNewlines(s: string): (r: string)
    ensures '\r' !in r
    decreases |s|
  {
    if s == [] then []
    else if s[0] == '\r' then ['\n'] + UniversalNewlines(if |s| > 1 && s[1] == '\n' then s[2..] else s[1..])
    else [s[0]] + UniversalNewlines(s[1..])
  }

  /** Text without a carriage return is read as it is. */
  lemma {:induction false} NoCarriageReturnRead(s: string)
    requires '\r' !in s
    ensures UniversalNewlines(s) == s
  {
    if s != [] {
      NoCarriageReturnRead(s[1..]);
    }
  }

  /** The lines of the file, as `for line in f` reads them (the newline does not matter once stripped). */
  function InfoLines(content: string): seq<string> { Split(UniversalNewlines(content), '\n') }

  /** A character other than a carriage return is read as it is. */
  lemma {:induction false} PlainCharRead(c: char, t: string)
    requires c != '\r'
    ensures UniversalNewlines([c] + t) == [c] + UniversalNewlines(t)
  {
    assert ([c] + t)[1..] == t;
  }

  /** A carriage return not followed by a newline is read as one. */
  lemma {:induction false} LoneCarriageReturnRead(q: string)
    requires q == [] || q[0] != '\n'
    ensures UniversalNewlines(['\r'] + q) == ['\n'] + UniversalNewlines(q)
  {
    assert (['\r'] + q)[1..] == q;
  }

  /** A carriage return followed by a newline reads as one newline. */
  lemma {:induction false} CrLfRead(q: string)
    ensures UniversalNewlines(['\r', '\n'] + q) == ['\n'] + UniversalNewlines(q)
  {
    assert (['\r', '\n'] + q)[2..] == q;
  }

  /** A lone carriage return after a piece without one reads as a newline. */
  lemma {:induction false} LoneCarriageReturn(p: string, q: string)
    requires '\r' !in p && (q == [] || q[0] != '\n')
    ensures UniversalNewlines(p + ['\r'] + q) == p + ['\n'] + UniversalNewlines(q)
    decreases |p|
  {
    var s := p + ['\r'] + q;
    var u := UniversalNewlines(q);
    if p == [] {
      assert s == ['\r'] + q;
      LoneCarriageReturnRead(q);
      assert UniversalNewlines(s) == ['\n'] + u;
      assert p + ['\n'] + u == ['\n'] + u;
    } else {
      var rest := p[1..];
      assert p[0] in p;
      var t := rest + ['\r'] + q;
      assert s == [p[0]] + t;
      PlainCharRead(p[0], t);
      LoneCarriageReturn(rest, q);
      assert UniversalNewlines(s) == [p[0]] + (rest + ['\n'] + u);
      assert [p[0]] + (rest + ['\n'] + u) == p + ['\n'] + u;
    }
  }

  /** A lone carriage return ends a line, as the newline does: two lines joined by one read as those two lines. */
  lemma {:induction false} CarriageReturnEndsLine(a: string, b: string)
    requires '\r' !in a && '\n' !in a && '\r' !in b && '\n' !in b
    ensures InfoLines(a + ['\r'] + b) == [a, b]
  {
    LoneCarriageReturn(a, b);
    NoCarriageReturnRead(b);
    SplitAfterPiece(a, '\n', b);
    SplitNoSep(b, '\n');
  }

  /** `parse_voicemail_info`: an unreadable file gives the empty dictionary. */
  method ParseVoicemailInfo(content: Option<string>) returns (info: map<string, string>)
    ensures info == if content.None? then map[] else InfoOf(InfoLines(content.value))
  {
    info := map[];
    if content.None? {
      return;
    }
    var lines := InfoLines(content.value);
    var i := 0;
    while i < |lines|
      invariant 0 <= i <= |lines|
      invariant info == InfoOf(lines[..i])
    {
      var line := lines[i];
      assert lines[..i + 1][..i] == lines[..i];
      if '=' in line {
        var kv := LineEntry(line).value;
        info := info[kv.0 := kv.1];
      }
      i := i + 1;
    }
    assert lines[..i] == lines;
  }

  /** A key is present exactly when some line sets it. */
  lemma {:induction false} InfoKeys(lines: seq<string>, key: string)
    ensures key in InfoOf(lines) <==> exists i :: 0 <= i < |lines| && Defines(lines[i], key)
  {
    if lines != [] {
      var n := |lines| - 1;
      var init := lines[..n];
      InfoKeys(init, key);
      if Defines(lines[n], key) {
        assert key in InfoOf(lines);
      } else {
        assert key in InfoOf(lines) <==> key in InfoOf(init);
        InfoKeysInit(lines, init, key);
      }
    }
  }

  lemma {:induction false} InfoKeysInit(lines: seq<string>, init: seq<string>, key: string)
    requires lines != [] && init == lines[..|lines| - 1] && !Defines(lines[|lines| - 1], key)
    ensures (exists i :: 0 <= i < |lines| && Defines(lines[i], key))
        <==> (exists i :: 0 <= i < |init| && Defines(init[i], key))
  {
    assert forall i :: 0 <= i < |init| ==> init[i] == lines[i];
  }

  /** The value of a key comes from the last line that sets it. */
  lemma {:induction false} InfoLastWins(lines: seq<string>, i: nat, key: string)
    requires i < |lines| && Defines(lines[i], key)
    requires forall j :: i < j < |lines| ==> !Defines(lines[j], key)
    ensures key in InfoOf(lines) && InfoOf(lines)[key] == LineEntry(lines[i]).value.1
  {
    var init := lines[..|lines| - 1];
    if i < |lines| - 1 {
      assert init[i] == lines[i];
      forall j | i < j < |init| ensures !Defines(init[j], key) {
        assert init[j] == lines[j];
      }
      InfoLastWins(init, i, key);
      assert !Defines(lines[|lines| - 1], key);
    }
  }

  // ---------------------------------------------------------------- the spool directory

  const VoicemailPath := "/var/spool/asterisk/voicemail/default"
  const Inbox := "INBOX"
  const OldFolder := "Old"
  /** The folders the sync reads, in order. */
  const SyncFolders := [Inbox, OldFolder]
  /** The audio extensions tried, in order. */
  const AudioExtensions := [".wav", ".WAV", ".wav49"]

  /** A folder's listing in `os.listdir` order, and the text of each info file that can be read. */
  datatype FolderDir = FolderDir(files: seq<string>, infos: map<string, string>)

  /** A directory entry of the spool; `folders` holds the sub-folders that exist. */
  datatype MailboxDir = MailboxDir(name: string, isDir: bool, folders: map<string, FolderDir>)

  datatype Spool = Spool(present: bool, mailboxes: seq<MailboxDir>)

  function FolderPath(mailbox: string, folder: string): string {
    VoicemailPath + "/" + mailbox + "/" + folder
  }

  /** A message info file: `msg…` ending in `.txt`. */
  predicate IsInfoFile(name: string) {
    StartsWith(name, "msg") && EndsWith(name, ".txt")
  }

  /** `filename.replace(".txt", "")`. */
  function MessageId(name: string): string { ReplaceAll(name, ".txt", "") }

  /** The first extension (in the order tried) whose audio file exists. */
  function AudioExt(dir: FolderDir, msgId: string): (e: Option<string>)
    ensures e.Some? ==> e.value in AudioExtensions && msgId + e.value in dir.files
    ensures e.Some? && e.value != AudioExtensions[0] ==> msgId + AudioExtensions[0] !in dir.files
    ensures e.Some? && e.value == AudioExtensions[2] ==> msgId + AudioExtensions[1] !in dir.files
    ensures e.None? ==> forall k :: 0 <= k < |AudioExtensions| ==> msgId + AudioExtensions[k] !in dir.files
  {
    FirstAudio(dir, msgId, 0)
  }

  function FirstAudio(dir: FolderDir, msgId: string, k: nat): (e: Option<string>)
    requires k <= |AudioExtensions|
    ensures e.Some? ==> exists j :: k <= j < |AudioExtensions| && e.value == AudioExtensions[j]
                          && msgId + e.value in dir.files
                          && forall m :: k <= m < j ==> msgId + AudioExtensions[m] !in dir.files
    ensures e.None? ==> forall m :: k <= m < |AudioExtensions| ==> msgId + AudioExtensions[m] !in dir.files
    decreases |AudioExtensions| - k
  {
    if k == |AudioExtensions| then None
    else if msgId + AudioExtensions[k] in dir.files then Some(AudioExtensions[k])
    else FirstAudio(dir, msgId, k + 1)
  }

  /** The loop over the extensions, stopping at the first audio file that exists. */
  method FindAudio(dir: FolderDir, msgId: string) returns (e: Option<string>)
    ensures e == AudioExt(dir, msgId)
  {
    var k := 0;
    while k < |AudioExtensions|
      invariant 0 <= k <= |AudioExtensions|
      invariant FirstAudio(dir, msgId, 0) == FirstAudio(dir, msgId, k)
    {
      if msgId + AudioExtensions[k] in dir.files {
        return Some(AudioExtensions[k]);
      }
      k := k + 1;
    }
    return None;
  }

  /** The server's clock: the UTC reading in seconds and the local zone's offset from UTC in seconds. */
  datatype Clock = Clock(utc: int, utcOffset: int)

  /** 0001-01-01 00:00:00 and 9999-12-31 23:59:59, in seconds since the epoch. */
  const MinDatetimeSeconds := -62135596800
  const MaxDatetimeSeconds := 253402300799

  /** The day CPython's naive `fromtimestamp` looks back to detect a fold. */
  const FoldProbeSeconds := 86400

  /**
   * `datetime.fromtimestamp(t)`: the naive local time, as seconds since the
   * epoch; None where it raises, which is when that local time, or the one a
   * day earlier that the fold probe converts, falls outside years 1 to 9999.
   */
  function FromTimestamp(t: int, clock: Clock): (r: Option<int>)
    ensures r.Some? <==> MinDatetimeSeconds + FoldProbeSeconds <= t + clock.utcOffset <= MaxDatetimeSeconds
    ensures r.Some? ==> r.value - clock.utcOffset == t
  {
    var local := t + clock.utcOffset;
    if MinDatetimeSeconds <= local - FoldProbeSeconds && local <= MaxDatetimeSeconds then Some(local) else None
  }

  /** The origtime of a present Asterisk timestamp, such as one from year 2025, is accepted in every real time zone. */
  lemma {:induction false} RecentOrigtimeAccepted(t: int, clock: Clock)
    requires 0 <= t <= 4102444800 && -86400 <= clock.utcOffset <= 86400
    ensures FromTimestamp(t, clock) == Some(t + clock.utcOffset)
  {
  }

  /** An origtime past year 9999 makes `fromtimestamp` raise, whatever the zone. */
  lemma {:induction false} FarOrigtimeRejected(clock: Clock)
    requires -86400 <= clock.utcOffset <= 86400
    ensures FromTimestamp(300000000000, clock).None?
  {
  }

  /**
   * The row built for a new message: caller "Unknown" and duration 0 when
   * the info lacks them, the date from `origtime` in local time when it is
   * given and the UTC clock otherwise; None when `int()` rejects a value or
   * `fromtimestamp` rejects the origtime.
   */
  function NewRecord(id: int, mailbox: string, folder: string, msgId: string, audioPath: string,
                     info: map<string, string>, now: Clock): (r: Option<VoicemailRecord>)
    ensures r.Some? ==> (r.value.id == id && r.value.mailbox == mailbox && r.value.folder == folder
                         && r.value.msgId == msgId && r.value.filePath == audioPath
                         && r.value.isRead == (folder == OldFolder))
    ensures r.Some? ==> r.value.callerId == (if "callerid" in info then info["callerid"] else "Unknown")
    ensures r.Some? && "duration" !in info ==> r.value.duration == 0
    ensures r.Some? && ("origtime" !in info || info["origtime"] == "") ==> r.value.date == now.utc
    ensures r.Some? && "origtime" in info && info["origtime"] != "" ==>
      PyInt(info["origtime"]).Some? && FromTimestamp(PyInt(info["origtime"]).value, now) == Some(r.value.date)
    ensures r.Some? ==> ("duration" !in info || PyInt(info["duration"]) == Some(r.value.duration))
    ensures r.Some? <==> (("duration" !in info || PyInt(info["duration"]).Some?)
                          && ("origtime" !in info || info["origtime"] == "" ||
                              (PyInt(info["origtime"]).Some? && FromTimestamp(PyInt(info["origtime"]).value, now).Some?)))
  {
    var callerId := if "callerid" in info then info["callerid"] else "Unknown";
    var duration := if "duration" in info then PyInt(info["duration"]) else Some(0);
    var date := if "origtime" in info && info["origtime"] != "" then
                  (match PyInt(info["origtime"]) case None => None case Some(t) => FromTimestamp(t, now))
                else Some(now.utc);
    if duration.None? || date.None? then None
    else Some(VoicemailRecord(id, mailbox, callerId, duration.value, date.value, folder == OldFolder, audioPath, folder, msgId))
  }

  // ---------------------------------------------------------------- the sync as a fold

  /** The rows and the next id while the sync runs. */
  datatype SyncState = SyncState(records: seq<VoicemailRecord>, nextId: int)

  predicate Recorded(records: seq<VoicemailRecord>, mailbox: string, msgId: string, folder: string) {
    exists i :: 0 <= i < |records| && records[i].mailbox == mailbox && records[i].msgId == msgId && records[i].folder == folder
  }

  /** One file of a folder listing: skipped, imported, or (None) the `int()` that raises. */
  function ImportFile(st: SyncState, mailbox: string, folder: string, dir: FolderDir, name: string, now: Clock): Option<SyncState> {
    if !IsInfoFile(name) then Some(st)
    else
      var msgId := MessageId(name);
      if Recorded(st.records, mailbox, msgId, folder) then Some(st)
      else
        var info := if name in dir.infos then InfoOf(InfoLines(dir.infos[name])) else map[];
        match AudioExt(dir, msgId)
        case None => Some(st)
        case Some(ext) =>
          match NewRecord(st.nextId, mailbox, folder, msgId, FolderPath(mailbox, folder) + "/" + msgId + ext, info, now)
          case None => None
          case Some(r) => Some(SyncState(st.records + [r], st.nextId + 1))
  }

  function ImportFiles(st: SyncState, mailbox: string, folder: string, dir: FolderDir, names: seq<string>, now: Clock)
    : Option<SyncState>
  {
    if names == [] then Some(st)
    else
      match ImportFiles(st, mailbox, folder, dir, names[..|names| - 1], now)
      case None => None
      case Some(s) => ImportFile(s, mailbox, folder, dir, names[|names| - 1], now)
  }

  /** One of the two folders of a mailbox; a missing folder is skipped. */
  function ImportFolder(st: SyncState, mb: MailboxDir, folder: string, now: Clock): Option<SyncState> {
    if folder !in mb.folders then Some(st)
    else ImportFiles(st, mb.name, folder, mb.folders[folder], mb.folders[folder].files, now)
  }

  function ImportFolders(st: SyncState, mb: MailboxDir, folders: seq<string>, now: Clock): Option<SyncState> {
    if folders == [] then Some(st)
    else
      match ImportFolders(st, mb, folders[..|folders| - 1], now)
      case None => None
      case Some(s) => ImportFolder(s, mb, folders[|folders| - 1], now)
  }

  /** One spool entry; an entry that is not a directory is skipped. */
  function ImportMailbox(st: SyncState, mb: MailboxDir, now: Clock): Option<SyncState> {
    if !mb.isDir then Some(st) else ImportFolders(st, mb, SyncFolders, now)
  }

  function ImportMailboxes(st: SyncState, mbs: seq<MailboxDir>, now: Clock): Option<SyncState> {
    if mbs == [] then Some(st)
    else
      match ImportMailboxes(st, mbs[..|mbs| - 1], now)
      case None => None
      case Some(s) => ImportMailbox(s, mbs[|mbs| - 1], now)
  }

  /** `sync_voicemail_from_disk`: None when the request fails and the session is rolled back. */
  function Synced(st: SyncState, spool: Spool, now: Clock): Option<SyncState> {
    if !spool.present then Some(st) else ImportMailboxes(st, spool.mailboxes, now)
  }

  // ---------------------------------------------------------------- what a sync keeps

  /** No two rows for one (mailbox, msg_id, folder). */
  predicate NoDuplicates(records: seq<VoicemailRecord>) {
    forall i, j :: 0 <= i < j < |records| ==>
      !(records[i].mailbox == records[j].mailbox && records[i].msgId == records[j].msgId && records[i].folder == records[j].folder)
  }

  /** What an imported row looks like: from INBOX or Old, read exactly when from Old, audio beside its info file. */
  predicate Imported(r: VoicemailRecord) {
    && (r.folder == Inbox || r.folder == OldFolder)
    && r.isRead == (r.folder == OldFolder)
    && var base := FolderPath(r.mailbox, r.folder) + "/" + r.msgId;
       (r.filePath == base + ".wav" || r.filePath == base + ".WAV" || r.filePath == base + ".wav49")
  }

  /**
   * b continues a: the rows of a stay first and unchanged, the rows added
   * are imported ones with consecutive new ids, and no duplicate appears.
   */
  predicate Extends(a: SyncState, b: SyncState) {
    && |a.records| <= |b.records| && b.records[..|a.records|] == a.records
    && b.nextId == a.nextId + (|b.records| - |a.records|)
    && (forall i :: |a.records| <= i < |b.records| ==> Imported(b.records[i]) && b.records[i].id == a.nextId + (i - |a.records|))
    && (NoDuplicates(a.records) ==> NoDuplicates(b.records))
  }

  lemma {:induction false} ExtendsRefl(a: SyncState)
    ensures Extends(a, a)
  {
    assert a.records[..|a.records|] == a.records;
  }

  lemma {:induction false} ExtendsTrans(a: SyncState, b: SyncState, c: SyncState)
    requires Extends(a, b) && Extends(b, c)
    ensures Extends(a, c)
  {
    assert c.records[..|a.records|] == c.records[..|b.records|][..|a.records|];
    forall i | |a.records| <= i < |c.records|
      ensures Imported(c.records[i]) && c.records[i].id == a.nextId + (i - |a.records|)
    {
      if i < |b.records| {
        assert c.records[i] == b.records[i];
      }
    }
  }

  lemma {:induction false} ImportFileExtends(st: SyncState, mailbox: string, folder: string, dir: FolderDir, name: string, now: Clock)
    requires folder == Inbox || folder == OldFolder
    requires ImportFile(st, mailbox, folder, dir, name, now).Some?
    ensures Extends(st, ImportFile(st, mailbox, folder, dir, name, now).value)
  {
    var after := ImportFile(st, mailbox, folder, dir, name, now).value;
    if after == st {
      ExtendsRefl(st);
    } else {
      var msgId := MessageId(name);
      var rs := st.records;
      assert !Recorded(rs, mailbox, msgId, folder);
      var r := after.records[|rs|];
      assert after.records == rs + [r];
      assert r.mailbox == mailbox && r.msgId == msgId && r.folder == folder;
      assert after.records[..|rs|] == rs;
      if NoDuplicates(rs) {
        forall i, j | 0 <= i < j < |after.records|
          ensures !(after.records[i].mailbox == after.records[j].mailbox && after.records[i].msgId == after.records[j].msgId
                    && after.records[i].folder == after.records[j].folder)
        {
          assert after.records[i] == rs[i];
          if j < |rs| {
            assert after.records[j] == rs[j];
          }
        }
      }
    }
  }

  lemma {:induction false} ImportFilesExtends(st: SyncState, mailbox: string, folder: string, dir: FolderDir,
                                              names: seq<string>, now: Clock)
    requires folder == Inbox || folder == OldFolder
    requires ImportFiles(st, mailbox, folder, dir, names, now).Some?
    ensures Extends(st, ImportFiles(st, mailbox, folder, dir, names, now).value)
  {
    if names == [] {
      ExtendsRefl(st);
    } else {
      var init := names[..|names| - 1];
      var s := ImportFiles(st, mailbox, folder, dir, init, now).value;
      ImportFilesExtends(st, mailbox, folder, dir, init, now);
      ImportFileExtends(s, mailbox, folder, dir, names[|names| - 1], now);
      ExtendsTrans(st, s, ImportFiles(st, mailbox, folder, dir, names, now).value);
    }
  }

  lemma {:induction false} ImportFoldersExtends(st: SyncState, mb: MailboxDir, folders: seq<string>, now: Clock)
    requires forall k :: 0 <= k < |folders| ==> folders[k] == Inbox || folders[k] == OldFolder
    requires ImportFolders(st, mb, folders, now).Some?
    ensures Extends(st, ImportFolders(st, mb, folders, now).value)
  {
    if folders == [] {
      ExtendsRefl(st);
    } else {
      var init := folders[..|folders| - 1];
      var folder := folders[|folders| - 1];
      var s := ImportFolders(st, mb, init, now).value;
      ImportFoldersExtends(st, mb, init, now);
      if folder in mb.folders {
        ImportFilesExtends(s, mb.name, folder, mb.folders[folder], mb.folders[folder].files, now);
      } else {
        ExtendsRefl(s);
      }
      ExtendsTrans(st, s, ImportFolders(st, mb, folders, now).value);
    }
  }

  lemma {:induction false} ImportMailboxesExtends(st: SyncState, mbs: seq<MailboxDir>, now: Clock)
    requires ImportMailboxes(st, mbs, now).Some?
    ensures Extends(st, ImportMailboxes(st, mbs, now).value)
  {
    if mbs == [] {
      ExtendsRefl(st);
    } else {
      var init := mbs[..|mbs| - 1];
      var mb := mbs[|mbs| - 1];
      var s := ImportMailboxes(st, init, now).value;
      ImportMailboxesExtends(st, init, now);
      if mb.isDir {
        ImportFoldersExtends(s, mb, SyncFolders, now);
      } else {
        ExtendsRefl(s);
      }
      ExtendsTrans(st, s, ImportMailboxes(st, mbs, now).value);
    }
  }

  /**
   * A successful sync only appends: existing rows are untouched, new rows
   * come from INBOX or Old with `is_read` set exactly for Old and fresh ids,
   * and a table without duplicate triples keeps none.
   */
  lemma {:induction false} SyncExtends(st: SyncState, spool: Spool, now: Clock)
    requires Synced(st, spool, now).Some?
    ensures Extends(st, Synced(st, spool, now).value)
  {
    if spool.present {
      ImportMailboxesExtends(st, spool.mailboxes, now);
    } else {
      ExtendsRefl(st);
    }
  }

  /** A message that is already recorded is not imported again. */
  lemma {:induction false} RecordedIsSkipped(st: SyncState, mailbox: string, folder: string, dir: FolderDir, name: string, now: Clock)
    requires IsInfoFile(name) && Recorded(st.records, mailbox, MessageId(name), folder)
    ensures ImportFile(st, mailbox, folder, dir, name, now) == Some(st)
  {
  }

  /** A message without any of the three audio files is skipped. */
  lemma {:induction false} SilentIsSkipped(st: SyncState, mailbox: string, folder: string, dir: FolderDir, name: string, now: Clock)
    requires forall k :: 0 <= k < |AudioExtensions| ==> MessageId(name) + AudioExtensions[k] !in dir.files
    ensures ImportFile(st, mailbox, folder, dir, name, now) == Some(st)
  {
    assert AudioExt(dir, MessageId(name)).None?;
  }

  // ---------------------------------------------------------------- the sync's loops

  /** `for filename in os.listdir(folder_path)`. */
  method SyncFolder(st: SyncState, mailbox: string, folder: string, dir: FolderDir, now: Clock) returns (r: Option<SyncState>)
    ensures r == ImportFiles(st, mailbox, folder, dir, dir.files, now)
  {
    var s := st;
    var i := 0;
    while i < |dir.files|
      invariant 0 <= i <= |dir.files|
      invariant ImportFiles(st, mailbox, folder, dir, dir.files[..i], now) == Some(s)
    {
      var name := dir.files[i];
      ImportFilesStep(st, mailbox, folder, dir, dir.files, i, s, now);
      var next := SyncFile(s, mailbox, folder, dir, name, now);
      if next.None? {
        ImportFilesFail(st, mailbox, folder, dir, dir.files, i + 1, now);
        return None;
      }
      s := next.value;
      i := i + 1;
    }
    assert dir.files[..i] == dir.files;
    return Some(s);
  }

  /** One more file of the listing: the fold advances by importing that file. */
  lemma {:induction false} ImportFilesStep(st: SyncState, mailbox: string, folder: string, dir: FolderDir,
                                           names: seq<string>, i: nat, s: SyncState, now: Clock)
    requires i < |names| && ImportFiles(st, mailbox, folder, dir, names[..i], now) == Some(s)
    ensures ImportFiles(st, mailbox, folder, dir, names[..i + 1], now) == ImportFile(s, mailbox, folder, dir, names[i], now)
  {
    assert names[..i + 1][..i] == names[..i];
  }

  /** Once one file fails, the folder fails. */
  lemma {:induction false} ImportFilesFail(st: SyncState, mailbox: string, folder: string, dir: FolderDir,
                                           names: seq<string>, i: nat, now: Clock)
    requires i <= |names| && ImportFiles(st, mailbox, folder, dir, names[..i], now).None?
    ensures ImportFiles(st, mailbox, folder, dir, names, now).None?
    decreases |names| - i
  {
    if i < |names| {
      assert names[..i + 1][..i] == names[..i];
      ImportFilesFail(st, mailbox, folder, dir, names, i + 1, now);
    } else {
      assert names[..i] == names;
    }
  }

  /** The body of the file loop: dedupe, read the info, find the audio, build the row. */
  method SyncFile(st: SyncState, mailbox: string, folder: string, dir: FolderDir, name: string, now: Clock)
    returns (r: Option<SyncState>)
    ensures r == ImportFile(st, mailbox, folder, dir, name, now)
  {
    if !IsInfoFile(name) {
      return Some(st);
    }
    var msgId := MessageId(name);
    if Recorded(st.records, mailbox, msgId, folder) {
      return Some(st);
    }
    var info := ParseVoicemailInfo(if name in dir.infos then Some(dir.infos[name]) else None);
    var ext := FindAudio(dir, msgId);
    if ext.None? {
      return Some(st);
    }
    var rec := NewRecord(st.nextId, mailbox, folder, msgId, FolderPath(mailbox, folder) + "/" + msgId + ext.value, info, now);
    if rec.None? {
      return None;
    }
    return Some(SyncState(st.records + [rec.value], st.nextId + 1));
  }

  /** `for folder in ["INBOX", "Old"]`. */
  method SyncMailbox(st: SyncState, mb: MailboxDir, now: Clock) returns (r: Option<SyncState>)
    ensures r == ImportMailbox(st, mb, now)
  {
    if !mb.isDir {
      return Some(st);
    }
    var s := st;
    var i := 0;
    while i < |SyncFolders|
      invariant 0 <= i <= |SyncFolders|
      invariant ImportFolders(st, mb, SyncFolders[..i], now) == Some(s)
    {
      var folder := SyncFolders[i];
      assert SyncFolders[..i + 1][..i] == SyncFolders[..i];
      if folder in mb.folders {
        var next := SyncFolder(s, mb.name, folder, mb.folders[folder], now);
        if next.None? {
          ImportFoldersFail(st, mb, SyncFolders, i + 1, now);
          return None;
        }
        s := next.value;
      }
      i := i + 1;
    }
    assert SyncFolders[..i] == SyncFolders;
    return Some(s);
  }

  lemma {:induction false} ImportFoldersFail(st: SyncState, mb: MailboxDir, folders: seq<string>, i: nat, now: Clock)
    requires i <= |folders| && ImportFolders(st, mb, folders[..i], now).None?
    ensures ImportFolders(st, mb, folders, now).None?
    decreases |folders| - i
  {
    if i < |folders| {
      assert folders[..i + 1][..i] == folders[..i];
      ImportFoldersFail(st, mb, folders, i + 1, now);
    } else {
      assert folders[..i] == folders;
    }
  }

  /** `for mailbox in os.listdir(VOICEMAIL_PATH)`. */
  method SyncSpool(st: SyncState, spool: Spool, now: Clock) returns (r: Option<SyncState>)
    ensures r == Synced(st, spool, now)
  {
    if !spool.present {
      return Some(st);
    }
    var mbs := spool.mailboxes;
    var s := st;
    var i := 0;
    while i < |mbs|
      invariant 0 <= i <= |mbs|
      invariant ImportMailboxes(st, mbs[..i], now) == Some(s)
    {
      assert mbs[..i + 1][..i] == mbs[..i];
      var next := SyncMailbox(s, mbs[i], now);
      if next.None? {
        ImportMailboxesFail(st, mbs, i + 1, now);
        return None;
      }
      s := next.value;
      i := i + 1;
    }
    assert mbs[..i] == mbs;
    return Some(s);
  }

  lemma {:induction false} ImportMailboxesFail(st: SyncState, mbs: seq<MailboxDir>, i: nat, now: Clock)
    requires i <= |mbs| && ImportMailboxes(st, mbs[..i], now).None?
    ensures ImportMailboxes(st, mbs, now).None?
    decreases |mbs| - i
  {
    if i < |mbs| {
      assert mbs[..i + 1][..i] == mbs[..i];
      ImportMailboxesFail(st, mbs, i + 1, now);
    } else {
      assert mbs[..i] == mbs;
    }
  }

  // ---------------------------------------------------------------- list and statistics

  /** One element of the list reply. */
  datatype VoicemailView = VoicemailView(
    id: int, mailbox: string, callerId: string, duration: int, date: int, isRead: bool, filePath: string)

  function View(r: VoicemailRecord): VoicemailView {
    VoicemailView(r.id, r.mailbox, r.callerId, r.duration, r.date, r.isRead, r.filePath)
  }

  function DateKey(r: VoicemailRecord): int { r.date }

  /** `if mailbox:` keeps that mailbox's rows; `if unread_only:` keeps the unread ones. */
  predicate Listed(r: VoicemailRecord, mailbox: Option<string>, unreadOnly: Option<bool>) {
    && (mailbox.Some? && mailbox.value != "" ==> r.mailbox == mailbox.value)
    && (unreadOnly == Some(true) ==> !r.isRead)
  }

  /** The rows the query returns: those passing the filters, newest first (`ORDER BY date DESC`). */
  function ListedRows(records: seq<VoicemailRecord>, mailbox: Option<string>, unreadOnly: Option<bool>): seq<VoicemailRecord> {
    Ordering.SortDesc(Select(records, r => Listed(r, mailbox, unreadOnly)), DateKey)
  }

  function Views(rows: seq<VoicemailRecord>): (v: seq<VoicemailView>)
    ensures |v| == |rows| && forall i :: 0 <= i < |rows| ==> v[i] == View(rows[i])
  {
    seq(|rows|, i requires 0 <= i < |rows| => View(rows[i]))
  }

  /** The query of GET /api/voicemail/. */
  function ListOf(records: seq<VoicemailRecord>, mailbox: Option<string>, unreadOnly: Option<bool>): seq<VoicemailView> {
    Views(ListedRows(records, mailbox, unreadOnly))
  }

  /** The rows returned are exactly the rows passing the filters, as often as they occur, newest first. */
  lemma {:induction false} ListedRowsSound(records: seq<VoicemailRecord>, mailbox: Option<string>, unreadOnly: Option<bool>)
    ensures var rows := ListedRows(records, mailbox, unreadOnly);
      && (forall i, k :: 0 <= i < k < |rows| ==> rows[i].date >= rows[k].date)
      && (forall r :: multiset(rows)[r] == if Listed(r, mailbox, unreadOnly) then multiset(records)[r] else 0)
  {
    var sel := Select(records, r => Listed(r, mailbox, unreadOnly));
    Ordering.SortDescSortedPermutation(sel, DateKey);
    forall r ensures multiset(sel)[r] == if Listed(r, mailbox, unreadOnly) then multiset(records)[r] else 0 {
      SelectCounts(records, r => Listed(r, mailbox, unreadOnly), r);
    }
  }

  /** The list holds exactly the views of the rows that pass the filters, newest first. */
  lemma {:induction false} ListSound(records: seq<VoicemailRecord>, mailbox: Option<string>, unreadOnly: Option<bool>)
    ensures var l := ListOf(records, mailbox, unreadOnly);
      && (forall i :: 0 <= i < |l| ==> exists j :: 0 <= j < |records| && Listed(records[j], mailbox, unreadOnly) && l[i] == View(records[j]))
      && (forall j :: 0 <= j < |records| && Listed(records[j], mailbox, unreadOnly) ==> View(records[j]) in l)
      && (forall i, k :: 0 <= i < k < |l| ==> l[i].date >= l[k].date)
  {
    var rows := ListedRows(records, mailbox, unreadOnly);
    ListedRowsSound(records, mailbox, unreadOnly);
    var l := ListOf(records, mailbox, unreadOnly);
    forall i | 0 <= i < |l|
      ensures exists j :: 0 <= j < |records| && Listed(records[j], mailbox, unreadOnly) && l[i] == View(records[j])
    {
      var j := RowOrigin(records, rows, mailbox, unreadOnly, i);
      assert l[i] == View(records[j]);
    }
    forall j | 0 <= j < |records| && Listed(records[j], mailbox, unreadOnly) ensures View(records[j]) in l {
      var i := RowPlace(records, rows, mailbox, unreadOnly, j);
      assert l[i] == View(records[j]);
    }
  }

  /** Where a listed row comes from. */
  lemma {:induction false} RowOrigin(records: seq<VoicemailRecord>, rows: seq<VoicemailRecord>,
                                    mailbox: Option<string>, unreadOnly: Option<bool>, i: nat) returns (j: nat)
    requires i < |rows|
    requires forall r :: multiset(rows)[r] == if Listed(r, mailbox, unreadOnly) then multiset(records)[r] else 0
    ensures j < |records| && Listed(records[j], mailbox, unreadOnly) && records[j] == rows[i]
  {
    assert multiset(rows)[rows[i]] > 0;
    assert rows[i] in records;
    j :| 0 <= j < |records| && records[j] == rows[i];
  }

  /** Where a row passing the filters is listed. */
  lemma {:induction false} RowPlace(records: seq<VoicemailRecord>, rows: seq<VoicemailRecord>,
                                   mailbox: Option<string>, unreadOnly: Option<bool>, j: nat) returns (i: nat)
    requires j < |records| && Listed(records[j], mailbox, unreadOnly)
    requires forall r :: multiset(rows)[r] == if Listed(r, mailbox, unreadOnly) then multiset(records)[r] else 0
    ensures i < |rows| && rows[i] == records[j]
  {
    assert multiset(records)[records[j]] > 0;
    assert records[j] in rows;
    i :| 0 <= i < |rows| && rows[i] == records[j];
  }

  function CountUnread(records: seq<VoicemailRecord>): (n: nat)
    ensures n <= |records|
  {
    if records == [] then 0 else (if records[0].isRead then 0 else 1) + CountUnread(records[1..])
  }

  function CountIn(records: seq<VoicemailRecord>, mailbox: string): (n: nat)
    ensures n <= |records|
  {
    if records == [] then 0 else (if records[0].mailbox == mailbox then 1 else 0) + CountIn(records[1..], mailbox)
  }

  /** The mailboxes that have rows, in order of first appearance. */
  function MailboxesOf(records: seq<VoicemailRecord>): (r: seq<string>)
    ensures forall i :: 0 <= i < |records| ==> records[i].mailbox in r
    ensures forall k :: 0 <= k < |r| ==> exists i :: 0 <= i < |records| && records[i].mailbox == r[k]
    ensures forall k, m :: 0 <= k < m < |r| ==> r[k] != r[m]
  {
    if records == [] then []
    else
      var init := MailboxesOf(records[..|records| - 1]);
      var last := records[|records| - 1].mailbox;
      assert forall i :: 0 <= i < |records| - 1 ==> records[..|records| - 1][i] == records[i];
      if last in init then init else init + [last]
  }

  /** `group_by(mailbox)` with `count(id)`: the rows each mailbox has. */
  function ByMailbox(records: seq<VoicemailRecord>): (counts: seq<(string, nat)>)
    ensures |counts| == |MailboxesOf(records)|
  {
    var names := MailboxesOf(records);
    seq(|names|, k requires 0 <= k < |names| => (names[k], CountIn(records, names[k])))
  }

  datatype VoicemailStats = VoicemailStats(total: nat, unread: nat, byMailbox: seq<(string, nat)>)

  function StatsOf(records: seq<VoicemailRecord>): (s: VoicemailStats)
    ensures s.unread <= s.total
  {
    VoicemailStats(|records|, CountUnread(records), ByMailbox(records))
  }

  function SumCounts(counts: seq<(string, nat)>): nat {
    if counts == [] then 0 else counts[0].1 + SumCounts(counts[1..])
  }

  function SumIn(records: seq<VoicemailRecord>, names: seq<string>): nat {
    if names == [] then 0 else CountIn(records, names[0]) + SumIn(records, names[1..])
  }

  /** Among distinct names, a value equals exactly one if it is listed, none otherwise. */
  function Indicator(names: seq<string>, x: string): nat {
    if names == [] then 0 else (if names[0] == x then 1 else 0) + Indicator(names[1..], x)
  }

  lemma {:induction false} IndicatorDistinct(names: seq<string>, x: string)
    requires forall k, m :: 0 <= k < m < |names| ==> names[k] != names[m]
    ensures Indicator(names, x) == if x in names then 1 else 0
  {
    if names != [] {
      var t := names[1..];
      forall k, m | 0 <= k < m < |t| ensures t[k] != t[m] {
        assert t[k] == names[k + 1] && t[m] == names[m + 1];
      }
      IndicatorDistinct(t, x);
      assert x in names <==> names[0] == x || x in t;
      if names[0] == x {
        assert forall m :: 0 <= m < |t| ==> t[m] == names[m + 1] && names[m + 1] != names[0];
        assert x !in t;
      }
    }
  }

  /** Splitting the first row off the per-mailbox sum. */
  lemma {:induction false} SumInCons(records: seq<VoicemailRecord>, names: seq<string>)
    requires records != []
    ensures SumIn(records, names) == Indicator(names, records[0].mailbox) + SumIn(records[1..], names)
  {
    if names != [] {
      SumInCons(records, names[1..]);
    }
  }

  lemma {:induction false} SumInEmpty(names: seq<string>)
    ensures SumIn([], names) == 0
  {
    if names != [] {
      SumInEmpty(names[1..]);
    }
  }

  /** Over a list of distinct names that covers every row, the counts add up to the number of rows. */
  lemma {:induction false} SumInCovers(records: seq<VoicemailRecord>, names: seq<string>)
    requires forall k, m :: 0 <= k < m < |names| ==> names[k] != names[m]
    requires forall i :: 0 <= i < |records| ==> records[i].mailbox in names
    ensures SumIn(records, names) == |records|
  {
    if records != [] {
      var rest := records[1..];
      SumInCons(records, names);
      IndicatorDistinct(names, records[0].mailbox);
      assert records[0].mailbox in names;
      forall i | 0 <= i < |rest| ensures rest[i].mailbox in names {
        assert rest[i] == records[i + 1];
      }
      SumInCovers(rest, names);
    } else {
      SumInEmpty(names);
    }
  }

  lemma {:induction false} SumCountsOf(records: seq<VoicemailRecord>, names: seq<string>)
    ensures SumCounts(seq(|names|, k requires 0 <= k < |names| => (names[k], CountIn(records, names[k])))) == SumIn(records, names)
  {
    var c := seq(|names|, k requires 0 <= k < |names| => (names[k], CountIn(records, names[k])));
    if names != [] {
      SumCountsOf(records, names[1..]);
      assert c[1..] == seq(|names[1..]|, k requires 0 <= k < |names[1..]| => (names[1..][k], CountIn(records, names[1..][k])));
    }
  }

  /** The per-mailbox counts are totals, not unread counts: they add up to the total. */
  lemma {:induction false} ByMailboxSumsToTotal(records: seq<VoicemailRecord>)
    ensures SumCounts(StatsOf(records).byMailbox) == StatsOf(records).total
  {
    var names := MailboxesOf(records);
    SumCountsOf(records, names);
    SumInCovers(records, names);
  }

  // ---------------------------------------------------------------- one row

  function RecordId(r: VoicemailRecord): int { r.id }

  /** The first row with the id (`.filter(id == voicemail_id).first()`). */
  function FindId(records: seq<VoicemailRecord>, id: int): Option<nat> {
    FirstWithKey(records, RecordId, id)
  }

  /** PATCH …/mark-read: 404 for an unknown id; otherwise only `is_read` of that row changes. */
  function MarkedRead(records: seq<VoicemailRecord>, id: int): (r: (Reply<VoicemailView>, seq<VoicemailRecord>))
    ensures FindId(records, id).None? ==> r.0 == Fail(NotFound, "Voicemail not found") && r.1 == records
    ensures FindId(records, id).Some? ==> var k := FindId(records, id).value;
      && r.1 == records[k := records[k].(isRead := true)] && r.0 == Ok(View(r.1[k]))
  {
    match FindId(records, id)
    case None => (Fail(NotFound, "Voicemail not found"), records)
    case Some(k) =>
      var after := records[k := records[k].(isRead := true)];
      (Ok(View(after[k])), after)
  }

  /** Marking twice is marking once. */
  lemma {:induction false} MarkReadIdempotent(records: seq<VoicemailRecord>, id: int)
    ensures MarkedRead(MarkedRead(records, id).1, id) == MarkedRead(records, id)
  {
    var once := MarkedRead(records, id).1;
    match FindId(records, id)
    case None =>
    case Some(k) =>
      assert forall j :: 0 <= j < |once| && j != k ==> once[j] == records[j];
      FirstWithKeyAt(once, RecordId, id, k);
      assert once[k := once[k].(isRead := true)] == once;
  }

  /** `file_path.replace('.wav', '.txt').replace('.WAV', '.txt')`. */
  function CompanionPath(path: string): string {
    ReplaceAll(ReplaceAll(path, ".wav", ".txt"), ".WAV", ".txt")
  }

  /**
   * The files a delete removes: the audio file when it exists, then its info file when that
   * still exists afterwards (a path without ".wav" names itself, and it is already gone).
   */
  function RemovedFiles(existing: set<string>, path: string): (r: seq<string>)
    ensures forall k :: 0 <= k < |r| ==> r[k] in existing
    ensures r != [] <==> path in existing
    ensures r != [] ==> r[0] == path
    ensures CompanionPath(path) in r <==> path in existing && CompanionPath(path) in existing
    ensures forall i, j :: 0 <= i < j < |r| ==> r[i] != r[j]
  {
    if path !in existing then []
    else if CompanionPath(path) != path && CompanionPath(path) in existing then [path, CompanionPath(path)]
    else [path]
  }

  /** DELETE /api/voicemail/{id}: 404 for an unknown id; otherwise that row goes, whatever happens to the files. */
  function DeletedRow(records: seq<VoicemailRecord>, id: int): (r: (Reply<bool>, seq<VoicemailRecord>))
    ensures FindId(records, id).None? ==> r.0 == Fail(NotFound, "Voicemail not found") && r.1 == records
    ensures FindId(records, id).Some? ==> var k := FindId(records, id).value;
      r.0 == Ok(true) && r.1 == records[..k] + records[k + 1..]
  {
    match FindId(records, id)
    case None => (Fail(NotFound, "Voicemail not found"), records)
    case Some(k) => (Ok(true), records[..k] + records[k + 1..])
  }

  /** Deleting removes one row and keeps every row with another id. */
  lemma {:induction false} DeleteRemovesOne(records: seq<VoicemailRecord>, id: int)
    requires FindId(records, id).Some?
    ensures |DeletedRow(records, id).1| == |records| - 1
    ensures forall j :: 0 <= j < |records| && records[j].id != id ==> records[j] in DeletedRow(records, id).1
  {
    var k := FindId(records, id).value;
    forall j | 0 <= j < |records| && records[j].id != id ensures records[j] in records[..k] + records[k + 1..] {
      KeptAfterRemoval(records, k, j);
    }
  }

  lemma {:induction false} KeptAfterRemoval<T>(s: seq<T>, k: nat, j: nat)
    requires k < |s| && j < |s| && j != k
    ensures s[j] in s[..k] + s[k + 1..]
  {
    if j < k {
      assert (s[..k] + s[k + 1..])[j] == s[j];
    } else {
      assert (s[..k] + s[k + 1..])[j - 1] == s[j];
    }
  }

  // ---------------------------------------------------------------- the table

  /** The `voicemail_records` table, in storage order, and the next id it assigns. */
  class VoicemailStore {
    var records: seq<VoicemailRecord>
    var nextId: int

    constructor (initial: seq<VoicemailRecord>, next: int)
      ensures records == initial && nextId == next
    {
      records := initial;
      nextId := next;
    }

    /** The sync, committed only when it completes; `now` is the clock's reading. */
    method Sync(spool: Spool, now: Clock) returns (ok: bool)
      modifies this
      ensures var r := Synced(SyncState(old(records), old(nextId)), spool, now);
        && ok == r.Some?
        && (ok ==> records == r.value.records && nextId == r.value.nextId)
        && (!ok ==> records == old(records) && nextId == old(nextId))
    {
      var r := SyncSpool(SyncState(records, nextId), spool, now);
      if r.None? {
        return false;
      }
      records, nextId := r.value.records, r.value.nextId;
      return true;
    }

    /** GET /api/voicemail/: sync, then the filtered list; a failed sync fails the request. */
    method ListVoicemails(mailbox: Option<string>, unreadOnly: Option<bool>, spool: Spool, now: Clock)
      returns (r: Reply<seq<VoicemailView>>)
      modifies this
      ensures var s := Synced(SyncState(old(records), old(nextId)), spool, now);
        && (s.None? ==> r.Fail? && r.status == ServerError && records == old(records) && nextId == old(nextId))
        && (s.Some? ==> records == s.value.records && nextId == s.value.nextId && r == Ok(ListOf(records, mailbox, unreadOnly)))
    {
      var ok := Sync(spool, now);
      if !ok {
        return Fail(ServerError, "Internal Server Error");
      }
      return Ok(ListOf(records, mailbox, unreadOnly));
    }

    /** GET /api/voicemail/stats: sync, then the counts. */
    method GetStats(spool: Spool, now: Clock) returns (r: Reply<VoicemailStats>)
      modifies this
      ensures var s := Synced(SyncState(old(records), old(nextId)), spool, now);
        && (s.None? ==> r.Fail? && r.status == ServerError && records == old(records) && nextId == old(nextId))
        && (s.Some? ==> records == s.value.records && nextId == s.value.nextId && r == Ok(StatsOf(records)))
    {
      var ok := Sync(spool, now);
      if !ok {
        return Fail(ServerError, "Internal Server Error");
      }
      return Ok(StatsOf(records));
    }

    method MarkAsRead(id: int) returns (r: Reply<VoicemailView>)
      modifies this
      ensures (r, records) == MarkedRead(old(records), id) && nextId == old(nextId)
    {
      var k := FindId(records, id);
      if k.None? {
        return Fail(NotFound, "Voicemail not found");
      }
      records := records[k.value := records[k.value].(isRead := true)];
      return Ok(View(records[k.value]));
    }

    /** `existing` is the set of paths that exist before the delete; `removed` the ones it deletes. */
    method DeleteVoicemail(id: int, existing: set<string>) returns (r: Reply<bool>, removed: seq<string>)
      modifies this
      ensures (r, records) == DeletedRow(old(records), id) && nextId == old(nextId)
      ensures removed == if r.Ok? then RemovedFiles(existing, old(records)[FindId(old(records), id).value].filePath) else []
    {
      var k := FindId(records, id);
      if k.None? {
        return Fail(NotFound, "Voicemail not found"), [];
      }
      removed := RemovedFiles(existing, records[k.value].filePath);
      records := records[..k.value] + records[k.value + 1..];
      r := Ok(true);
    }
  }
}
