/** packages/device/src/index.ts: the device's mDNS answer table, the
    flattening of a query into one response, the mapping from migration
    paths to bundled files, and the check that brings the device's local
    migration folder up to the bundled journal. */
module Device {
  import opened Common
  import Crypto

  // ---------------------------------------------------------------------
  // mDNS answers
  // ---------------------------------------------------------------------

  datatype Question = Question(name: string, qtype: string)

  /** The HTTPS server's `address()` when it is listening on an address. */
  datatype AddressInfo = AddressInfo(address: string, family: string, port: nat)

  datatype RecordData =
    | Text(text: string)
    | Srv(target: string, port: nat)
    | Bytes(bytes: seq<Crypto.byte>)

  datatype Answer = Answer(rtype: string, name: string, data: RecordData)

  /** DNS-SD service-type enumeration (section 9 of RFC 6763). */
  const ServicesName := "_services._dns-sd._udp.local"
  const HttpsName := "_https._tcp.local"

  /** The service instance, `<serial>-clamat-device._https._tcp.local`. */
  function InstanceName(serial: string): string { serial + "-clamat-device._https._tcp.local" }

  /** The host name the SRV record points at. */
  function SrvTarget(serial: string): string { serial + "-clamat-device.local" }

  /** The name the address and certificate records are published under. */
  function HostName(serial: string): string { serial + ".clamat-device.local" }

  /** The address record for the server's address family, if it has one. */
  function AddressRecords(info: AddressInfo, serial: string): seq<Answer> {
    (if info.family == "IPv4" then [Answer("A", HostName(serial), Text(info.address))] else [])
    + (if info.family == "IPv6" then [Answer("AAAA", HostName(serial), Text(info.address))] else [])
  }

  /** `getMdnsResponse` (lines 102-140). */
  function Respond(q: Question, serial: string, info: AddressInfo, cert: seq<Crypto.byte>): (r: seq<Answer>)
    ensures q == Question(ServicesName, "PTR") ==> r == [Answer("PTR", ServicesName, Text(HttpsName))]
    ensures q == Question(HttpsName, "PTR") ==> r == [Answer("PTR", HttpsName, Text(InstanceName(serial)))]
    ensures q == Question(InstanceName(serial), "SRV") ==>
      |r| == (if info.family in {"IPv4", "IPv6"} then 2 else 1)
      && r[0] == Answer("SRV", InstanceName(serial), Srv(SrvTarget(serial), info.port))
    ensures forall a :: a in r && a.rtype == "A" ==>
      info.family == "IPv4" && a == Answer("A", HostName(serial), Text(info.address))
    ensures forall a :: a in r && a.rtype == "AAAA" ==>
      info.family == "IPv6" && a == Answer("AAAA", HostName(serial), Text(info.address))
    ensures q == Question(HostName(serial), "CERT") ==> r == [Answer("CERT", HostName(serial), Bytes(cert))]
    ensures q.qtype !in {"PTR", "SRV", "A", "AAAA", "CERT"} ==> r == []
    ensures |r| <= 2
  {
    if q.name == ServicesName && q.qtype == "PTR" then
      [Answer("PTR", ServicesName, Text(HttpsName))]
    else if q.name == HttpsName && q.qtype == "PTR" then
      [Answer("PTR", HttpsName, Text(InstanceName(serial)))]
    else if q.name == InstanceName(serial) && q.qtype == "SRV" then
      [Answer("SRV", InstanceName(serial), Srv(SrvTarget(serial), info.port))] + AddressRecords(info, serial)
    else if q.name == HostName(serial) && q.qtype == "A" && info.family == "IPv4" then
      [Answer("A", HostName(serial), Text(info.address))]
    else if q.name == HostName(serial) && q.qtype == "AAAA" && info.family == "IPv6" then
      [Answer("AAAA", HostName(serial), Text(info.address))]
    else if q.name == HostName(serial) && q.qtype == "CERT" then
      [Answer("CERT", HostName(serial), Bytes(cert))]
    else []
  }

  /** The device's records as a table of (question, answers): a question
      outside it gets nothing, and one in it gets exactly its entry. */
  lemma AnswerTable(q: Question, serial: string, info: AddressInfo, cert: seq<Crypto.byte>)
    ensures Respond(q, serial, info, cert) != [] <==>
      q in {Question(ServicesName, "PTR"), Question(HttpsName, "PTR"), Question(InstanceName(serial), "SRV"),
            Question(HostName(serial), "CERT")}
      || (q == Question(HostName(serial), "A") && info.family == "IPv4")
      || (q == Question(HostName(serial), "AAAA") && info.family == "IPv6")
  {
  }

  /** Every answer is named after the question, except the address record
      that rides along with the SRV record. */
  lemma AnswersNamed(q: Question, serial: string, info: AddressInfo, cert: seq<Crypto.byte>)
    ensures forall a :: a in Respond(q, serial, info, cert) ==>
      a.name == q.name || (q.qtype == "SRV" && a.name == HostName(serial) && a.rtype in {"A", "AAAA"})
  {
  }

  /** The name the SRV record points at is not the name the address records
      carry: asking for the SRV target's address gets no answer, while the
      published host name resolves. */
  lemma SrvTargetUnanswered(serial: string, info: AddressInfo, cert: seq<Crypto.byte>)
    requires info.family == "IPv4"
    ensures Respond(Question(InstanceName(serial), "SRV"), serial, info, cert)[0].data.target == SrvTarget(serial)
    ensures Respond(Question(SrvTarget(serial), "A"), serial, info, cert) == []
    ensures Respond(Question(HostName(serial), "A"), serial, info, cert) == [Answer("A", HostName(serial), Text(info.address))]
  {
    var s, h := SrvTarget(serial), HostName(serial);
    assert s[|serial|] == '-' && h[|serial|] == '.';
    assert s != h;
    assert |s| != |ServicesName| || s != ServicesName;
  }

  /** The query listener (lines 208-214): nothing is sent while the HTTPS
      server has no address; otherwise the answers to each question, in
      question order. */
  function Response(questions: seq<Question>, serial: string, address: Option<AddressInfo>, cert: seq<Crypto.byte>): (r: Option<seq<Answer>>)
    ensures r.None? <==> address.None?
    ensures r.Some? ==> |r.value| <= 2 * |questions|
  {
    if address.None? then None
    else if questions == [] then Some([])
    else Some(Respond(questions[0], serial, address.value, cert)
              + Response(questions[1..], serial, address, cert).value)
  }

  /** Answering two batches of questions answers their concatenation. */
  lemma {:induction false} ResponseAppend(qs1: seq<Question>, qs2: seq<Question>, serial: string, info: AddressInfo, cert: seq<Crypto.byte>)
    ensures Response(qs1 + qs2, serial, Some(info), cert).value
      == Response(qs1, serial, Some(info), cert).value + Response(qs2, serial, Some(info), cert).value
  {
    if qs1 != [] {
      assert (qs1 + qs2)[1..] == qs1[1..] + qs2;
      ResponseAppend(qs1[1..], qs2, serial, info, cert);
    } else {
      assert qs1 + qs2 == qs2;
    }
  }

  /** Every answer sent answers one of the questions asked. */
  lemma {:induction false} ResponseAnswers(questions: seq<Question>, serial: string, info: AddressInfo, cert: seq<Crypto.byte>)
    ensures forall a :: a in Response(questions, serial, Some(info), cert).value ==>
      exists i :: 0 <= i < |questions| && a in Respond(questions[i], serial, info, cert)
  {
    if questions != [] {
      ResponseAnswers(questions[1..], serial, info, cert);
      forall a | a in Response(questions, serial, Some(info), cert).value
        ensures exists i :: 0 <= i < |questions| && a in Respond(questions[i], serial, info, cert)
      {
        if a !in Respond(questions[0], serial, info, cert) {
          var i :| 0 <= i < |questions[1..]| && a in Respond(questions[1..][i], serial, info, cert);
          assert questions[1..][i] == questions[i + 1];
        }
      }
    }
  }

  // ---------------------------------------------------------------------
  // Migration files
  // ---------------------------------------------------------------------

  /** The file a migration path is served from: the bundled journal or the
      bundled `<name>.sql`. */
  datatype MigrationFile = JournalFile | Sql(name: string)

  /** `path.dirname` and `path.basename`, split at the last '/'. */
  function LastSlash(p: string): (i: Option<nat>)
    ensures i.Some? ==> i.value < |p| && p[i.value] == '/' && '/' !in p[i.value + 1..]
    ensures i.None? <==> '/' !in p
  {
    if p == [] then None
    else if p[|p| - 1] == '/' then Some(|p| - 1)
    else
      var i := LastSlash(p[..|p| - 1]);
      assert p[..|p| - 1] + [p[|p| - 1]] == p;
      if i.Some? then assert p[i.value + 1..] == p[..|p| - 1][i.value + 1..] + [p[|p| - 1]]; i else i
  }

  function Dirname(p: string): string {
    match LastSlash(p)
    case None => "."
    case Some(i) => if i == 0 then "/" else p[..i]
  }

  function Basename(p: string): string {
    match LastSlash(p)
    case None => p
    case Some(i) => p[i + 1..]
  }

  const SqlExt := ".sql"

  /** `basename.slice(0, n)`: at most the first `n` characters. */
  function SliceTo(s: string, n: nat): string {
    if n <= |s| then s[..n] else s
  }

  /** `getMigrationFiles` as written (lines 55-63): the `.sql` name is the
      first four characters of the base name, `".sql".length` of them. */
  function MigrationFileAsWritten(p: string): (r: Option<MigrationFile>)
    ensures r.None? <==> !(Dirname(p) == "/meta" && Basename(p) == "_journal.json") && !(Dirname(p) == "/" && EndsWith(Basename(p), SqlExt))
  {
    if Dirname(p) == "/meta" && Basename(p) == "_journal.json" then Some(JournalFile)
    else if Dirname(p) == "/" && EndsWith(Basename(p), SqlExt) then Some(Sql(SliceTo(Basename(p), |SqlExt|)))
    else None
  }

  /** `getMigrationFiles` with the extension cut off the end of the base
      name, `basename.slice(0, -".sql".length)`. */
  function MigrationFileOf(p: string): (r: Option<MigrationFile>)
    ensures r.None? <==> !(Dirname(p) == "/meta" && Basename(p) == "_journal.json") && !(Dirname(p) == "/" && EndsWith(Basename(p), SqlExt))
    ensures r.Some? && r.value.Sql? ==> Basename(p) == r.value.name + SqlExt
  {
    if Dirname(p) == "/meta" && Basename(p) == "_journal.json" then Some(JournalFile)
    else if Dirname(p) == "/" && EndsWith(Basename(p), SqlExt) then
      var b := Basename(p);
      assert b == b[..|b| - |SqlExt|] + SqlExt;
      Some(Sql(b[..|b| - |SqlExt|]))
    else None
  }

  /** The path the journal code asks for, `/<tag>.sql`. */
  function SqlPath(tag: string): string { "/" + tag + SqlExt }

  lemma SqlPathSplits(tag: string)
    requires '/' !in tag
    ensures Dirname(SqlPath(tag)) == "/" && Basename(SqlPath(tag)) == tag + SqlExt
  {
    var p := SqlPath(tag);
    assert p[1..] == tag + SqlExt;
    assert '/' !in p[1..];
    assert LastSlash(p) == Some(0) by {
      assert p[0] == '/';
    }
  }

  /** Round trip: asking for `/<tag>.sql` serves the bundled `<tag>.sql`. */
  lemma MigrationRoundTrip(tag: string)
    requires '/' !in tag
    ensures MigrationFileOf(SqlPath(tag)) == Some(Sql(tag))
  {
    SqlPathSplits(tag);
    assert EndsWith(tag + SqlExt, SqlExt);
  }

  /** As written the round trip holds only for tags of exactly four
      characters; a journal tag such as `0000_init` is served from
      `0000.sql`. */
  lemma MigrationAsWrittenTruncates(tag: string)
    requires '/' !in tag
    ensures MigrationFileAsWritten(SqlPath(tag)) == Some(Sql(tag)) <==> |tag| == 4
    ensures MigrationFileAsWritten(SqlPath("0000_init")) == Some(Sql("0000"))
  {
    SqlPathSplits(tag);
    assert EndsWith(tag + SqlExt, SqlExt);
    var b := tag + SqlExt;
    if |tag| == 4 {
      assert b[..4] == tag;
    }
    SqlPathSplits("0000_init");
    assert EndsWith("0000_init" + SqlExt, SqlExt);
    assert ("0000_init" + SqlExt)[..4] == "0000";
  }

  // ---------------------------------------------------------------------
  // Migration journal
  // ---------------------------------------------------------------------

  /** A journal entry; `fields` stands for everything but the tag, so that
      equal entries are exactly entries with equal JSON. */
  datatype Entry = Entry(tag: string, fields: string)

  datatype Journal = Journal(version: string, dialect: string, entries: seq<Entry>)

  datatype SyncError =
    | IncompatibleVersion
    | IncompatibleDialect
    | IncompatibleEntries
    | MissingFile(path: string)

  /** Which reading of `/<tag>.sql` the sync goes through: the code as
      written (`MigrationFileAsWritten`), or the evidently intended one
      (`MigrationFileOf`). */
  datatype Reading = AsWritten | Intended

  function ReadThrough(reading: Reading, p: string): Option<MigrationFile> {
    if reading == AsWritten then MigrationFileAsWritten(p) else MigrationFileOf(p)
  }

  /** The bundled file a read of `/<tag>.sql` opens: the first four
      characters of `<tag>.sql` as written, the tag itself as intended. */
  function OpenedName(reading: Reading, tag: string): string {
    if reading == AsWritten then (tag + SqlExt)[..|SqlExt|] else tag
  }

  /** For a tag without a slash, each reading serves the file `OpenedName`
      names. */
  lemma OpensNamed(reading: Reading, tag: string)
    requires '/' !in tag
    ensures ReadThrough(reading, SqlPath(tag)) == Some(Sql(OpenedName(reading, tag)))
  {
    SqlPathSplits(tag);
    assert EndsWith(tag + SqlExt, SqlExt);
    if reading == Intended {
      MigrationRoundTrip(tag);
    }
  }

  /** The bundled `.sql` file for a journal tag, read through `reading`'s
      path mapping; a file that is not bundled makes the read throw. */
  function Bundled(reading: Reading, bundle: map<string, string>, tag: string): (r: Result<string, SyncError>)
    ensures r.Ok? <==> '/' !in tag && OpenedName(reading, tag) in bundle
    ensures r.Ok? ==> r.value == bundle[OpenedName(reading, tag)]
  {
    if '/' in tag then Err(MissingFile(SqlPath(tag)))
    else
      var f := ReadThrough(reading, SqlPath(tag));
      OpensNamed(reading, tag);
      if f.Some? && f.value.Sql? && f.value.name in bundle then Ok(bundle[f.value.name])
      else Err(MissingFile(SqlPath(tag)))
  }

  /** A bundle laid out by tag, as the migration generator writes it: as
      written the read of `0000_init` looks for `0000.sql` and throws; as
      intended it gets the tag's own file. */
  lemma TaggedBundleAsWritten()
    ensures Bundled(AsWritten, map["0000_init" := "create"], "0000_init").Err?
    ensures Bundled(Intended, map["0000_init" := "create"], "0000_init") == Ok("create")
  {
    assert OpenedName(AsWritten, "0000_init") == "0000";
  }

  /** Every entry in `entries[lo..hi]` has its `.sql` file bundled. */
  predicate BundledRange(reading: Reading, bundle: map<string, string>, entries: seq<Entry>, lo: nat, hi: nat) {
    forall i :: lo <= i < hi && i < |entries| ==> '/' !in entries[i].tag && OpenedName(reading, entries[i].tag) in bundle
  }

  /** Local entry `j` and its `.sql` file equal the bundled ones at `j`. */
  predicate EntryAgrees(reading: Reading, local: Journal, sql: map<string, string>, bundled: Journal, bundle: map<string, string>, j: nat)
    requires j < |local.entries| && j < |bundled.entries|
  {
    && local.entries[j] == bundled.entries[j]
    && local.entries[j].tag in sql
    && '/' !in bundled.entries[j].tag && OpenedName(reading, bundled.entries[j].tag) in bundle
    && sql[local.entries[j].tag] == bundle[OpenedName(reading, bundled.entries[j].tag)]
  }

  /** The local journal agrees with the bundled one: same version and
      dialect, no more entries, and each local entry and its `.sql` file
      equal to the bundled ones at the same index (lines 78-91). */
  predicate Compatible(reading: Reading, local: Journal, sql: map<string, string>, bundled: Journal, bundle: map<string, string>) {
    && local.version == bundled.version
    && local.dialect == bundled.dialect
    && |local.entries| <= |bundled.entries|
    && forall j :: 0 <= j < |local.entries| ==> EntryAgrees(reading, local, sql, bundled, bundle, j)
  }

  /** The tags of `entries[lo..hi]`. */
  function Tags(entries: seq<Entry>, lo: nat, hi: nat): (t: set<string>)
    requires lo <= hi <= |entries|
    ensures forall i :: lo <= i < hi ==> entries[i].tag in t
    decreases hi - lo
  {
    if lo == hi then {} else Tags(entries, lo, hi - 1) + {entries[hi - 1].tag}
  }

  /** The local `.sql` files after writing the bundled files of
      `entries[lo..hi]` in order. */
  function Installed(reading: Reading, sql: map<string, string>, entries: seq<Entry>, lo: nat, hi: nat, bundle: map<string, string>): map<string, string>
    requires lo <= hi <= |entries| && BundledRange(reading, bundle, entries, lo, hi)
    decreases hi - lo
  {
    if lo == hi then sql
    else Installed(reading, sql, entries, lo, hi - 1, bundle)[entries[hi - 1].tag := bundle[OpenedName(reading, entries[hi - 1].tag)]]
  }

  /** After the install every written tag holds its bundled file, every
      other file is untouched, and no other file appears. */
  lemma {:induction false} InstalledHolds(reading: Reading, sql: map<string, string>, entries: seq<Entry>, lo: nat, hi: nat, bundle: map<string, string>)
    requires lo <= hi <= |entries| && BundledRange(reading, bundle, entries, lo, hi)
    ensures forall t :: t in Tags(entries, lo, hi) ==>
      OpenedName(reading, t) in bundle && t in Installed(reading, sql, entries, lo, hi, bundle)
      && Installed(reading, sql, entries, lo, hi, bundle)[t] == bundle[OpenedName(reading, t)]
    ensures forall t :: t in sql && t !in Tags(entries, lo, hi) ==>
      t in Installed(reading, sql, entries, lo, hi, bundle) && Installed(reading, sql, entries, lo, hi, bundle)[t] == sql[t]
    ensures Installed(reading, sql, entries, lo, hi, bundle).Keys == sql.Keys + Tags(entries, lo, hi)
    decreases hi - lo
  {
    if lo < hi {
      InstalledHolds(reading, sql, entries, lo, hi - 1, bundle);
    }
  }

  /** One more written file extends the range of bundled entries and the
      files installed so far. */
  lemma InstallStep(reading: Reading, sql: map<string, string>, entries: seq<Entry>, lo: nat, i: nat, bundle: map<string, string>)
    requires lo <= i < |entries| && BundledRange(reading, bundle, entries, lo, i)
    requires '/' !in entries[i].tag && OpenedName(reading, entries[i].tag) in bundle
    ensures BundledRange(reading, bundle, entries, lo, i + 1)
    ensures Installed(reading, sql, entries, lo, i + 1, bundle)
      == Installed(reading, sql, entries, lo, i, bundle)[entries[i].tag := bundle[OpenedName(reading, entries[i].tag)]]
  {
  }

  /** As written, two journal tags whose `<tag>.sql` share the first four
      characters are installed with the same file: `0000_init` and
      `0000_seed` both get the bundled `0000.sql`. */
  lemma AsWrittenShares(sql: map<string, string>, entries: seq<Entry>, lo: nat, hi: nat, bundle: map<string, string>, t1: string, t2: string)
    requires lo <= hi <= |entries| && BundledRange(AsWritten, bundle, entries, lo, hi)
    requires t1 in Tags(entries, lo, hi) && t2 in Tags(entries, lo, hi)
    requires (t1 + SqlExt)[..|SqlExt|] == (t2 + SqlExt)[..|SqlExt|]
    ensures var after := Installed(AsWritten, sql, entries, lo, hi, bundle);
      t1 in after && t2 in after && after[t1] == after[t2]
  {
    InstalledHolds(AsWritten, sql, entries, lo, hi, bundle);
  }

  /** The device's local migrations folder: the journal file, if there is
      one, and the `.sql` files by tag. */
  class MigrationsFolder {
    var journal: Option<Journal>
    var sql: map<string, string>

    constructor(journal: Option<Journal>, sql: map<string, string>)
      ensures this.journal == journal && this.sql == sql
    {
      this.journal := journal;
      this.sql := sql;
    }

    /** Writes the bundled `.sql` file of each entry from index `lo` on, in
        order; a file that is not bundled stops the writing with the files
        written so far in place (lines 68-71 and 92-95). */
    method Install(reading: Reading, bundled: Journal, bundle: map<string, string>, lo: nat) returns (r: Result<(), SyncError>)
      requires lo <= |bundled.entries|
      modifies this
      ensures journal == old(journal)
      ensures r.Ok? <==> BundledRange(reading, bundle, bundled.entries, lo, |bundled.entries|)
      ensures r.Ok? ==> sql == Installed(reading, old(sql), bundled.entries, lo, |bundled.entries|, bundle)
    {
      var i := lo;
      while i < |bundled.entries|
        invariant lo <= i <= |bundled.entries|
        invariant journal == old(journal)
        invariant BundledRange(reading, bundle, bundled.entries, lo, i)
        invariant sql == Installed(reading, old(sql), bundled.entries, lo, i, bundle)
      {
        var tag := bundled.entries[i].tag;
        var content := Bundled(reading, bundle, tag);
        if content.Err? {
          return Err(content.error);
        }
        InstallStep(reading, old(sql), bundled.entries, lo, i, bundle);
        sql := sql[tag := content.value];
        i := i + 1;
      }
      r := Ok(());
    }

    /** Compares the local journal with the bundled one, entry by entry
        and file by file (lines 78-91). */
    method Check(reading: Reading, local: Journal, bundled: Journal, bundle: map<string, string>) returns (r: Result<(), SyncError>)
      ensures r.Ok? <==> Compatible(reading, local, sql, bundled, bundle)
      ensures local.version != bundled.version ==> r == Err(IncompatibleVersion)
      ensures local.version == bundled.version && local.dialect != bundled.dialect ==> r == Err(IncompatibleDialect)
    {
      if local.version != bundled.version {
        return Err(IncompatibleVersion);
      }
      if local.dialect != bundled.dialect {
        return Err(IncompatibleDialect);
      }
      if |local.entries| > |bundled.entries| {
        return Err(IncompatibleEntries);
      }
      var i := 0;
      while i < |local.entries|
        invariant 0 <= i <= |local.entries|
        invariant forall j :: 0 <= j < i ==> EntryAgrees(reading, local, sql, bundled, bundle, j)
      {
        var e := CheckEntry(reading, local, bundled, bundle, i);
        if e.Err? {
          return e;
        }
        i := i + 1;
      }
      r := Ok(());
    }

    /** One local entry against the bundled entry at the same index: the
        entries equal, the local `.sql` file present, the bundled one
        readable, the two the same (lines 85-90). */
    method CheckEntry(reading: Reading, local: Journal, bundled: Journal, bundle: map<string, string>, i: nat) returns (r: Result<(), SyncError>)
      requires i < |local.entries| && i < |bundled.entries|
      ensures r.Ok? <==> EntryAgrees(reading, local, sql, bundled, bundle, i)
    {
      if local.entries[i] != bundled.entries[i] {
        return Err(IncompatibleEntries);
      }
      var tag := local.entries[i].tag;
      if tag !in sql {
        return Err(MissingFile(SqlPath(tag)));
      }
      var content := Bundled(reading, bundle, bundled.entries[i].tag);
      if content.Err? {
        return Err(content.error);
      }
      if sql[tag] != content.value {
        return Err(IncompatibleEntries);
      }
      r := Ok(());
    }

    /** Lines 64-98: without a local journal every bundled file is written;
        with one, a compatible folder gets only the entries it lacks.  The
        journal is written last, so a folder holds the bundled journal
        only after every one of its files was written. */
    method Sync(reading: Reading, bundled: Journal, bundle: map<string, string>) returns (r: Result<(), SyncError>)
      modifies this
      ensures old(journal).None? ==> (r.Ok? <==> BundledRange(reading, bundle, bundled.entries, 0, |bundled.entries|))
      ensures old(journal).Some? ==> (r.Ok? <==>
        Compatible(reading, old(journal).value, old(sql), bundled, bundle)
        && BundledRange(reading, bundle, bundled.entries, |old(journal).value.entries|, |bundled.entries|))
      ensures old(journal).Some? && !Compatible(reading, old(journal).value, old(sql), bundled, bundle) ==>
        journal == old(journal) && sql == old(sql)
      ensures r.Err? ==> journal == old(journal)
      ensures r.Ok? ==> journal == Some(bundled)
      ensures r.Ok? && old(journal).None? ==> sql == Installed(reading, old(sql), bundled.entries, 0, |bundled.entries|, bundle)
      ensures r.Ok? && old(journal).Some? ==>
        sql == Installed(reading, old(sql), bundled.entries, |old(journal).value.entries|, |bundled.entries|, bundle)
    {
      if journal.None? {
        r := Install(reading, bundled, bundle, 0);
      } else {
        var local := journal.value;
        r := Check(reading, local, bundled, bundle);
        if r.Err? {
          return;
        }
        r := Install(reading, bundled, bundle, |local.entries|);
      }
      if r.Ok? {
        journal := Some(bundled);
      }
    }
  }

  /** After a compatible sync every bundled entry's file is in the folder
      with its bundled content, and the folder holds no file beyond the
      ones it had and the ones the journal names. */
  lemma SyncedMatches(reading: Reading, local: Journal, sql: map<string, string>, bundled: Journal, bundle: map<string, string>)
    requires Compatible(reading, local, sql, bundled, bundle)
    requires BundledRange(reading, bundle, bundled.entries, |local.entries|, |bundled.entries|)
    ensures forall i :: 0 <= i < |bundled.entries| ==>
      var after := Installed(reading, sql, bundled.entries, |local.entries|, |bundled.entries|, bundle);
      OpenedName(reading, bundled.entries[i].tag) in bundle && bundled.entries[i].tag in after
        && after[bundled.entries[i].tag] == bundle[OpenedName(reading, bundled.entries[i].tag)]
    ensures Installed(reading, sql, bundled.entries, |local.entries|, |bundled.entries|, bundle).Keys
      == sql.Keys + Tags(bundled.entries, |local.entries|, |bundled.entries|)
  {
    var n := |local.entries|;
    var after := Installed(reading, sql, bundled.entries, n, |bundled.entries|, bundle);
    InstalledHolds(reading, sql, bundled.entries, n, |bundled.entries|, bundle);
    forall i | 0 <= i < |bundled.entries|
      ensures OpenedName(reading, bundled.entries[i].tag) in bundle && bundled.entries[i].tag in after
        && after[bundled.entries[i].tag] == bundle[OpenedName(reading, bundled.entries[i].tag)]
    {
      if i < n {
        assert EntryAgrees(reading, local, sql, bundled, bundle, i);
      }
    }
  }
}
