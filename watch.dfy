/** The directory watcher (src/cli/watch.ts): one `tick` lists the watched
    directory, keeps the names that look like exports, and imports every file
    whose content hash is not yet in the import ledger. */
module Watch {
  import opened Wrappers
  import opened Text
  import opened HaeTypes
  import opened HaeTime
  import opened Store
  import opened Ingest

  type Bytes = seq<bv8>

  // ---- the file-name pattern /^HealthAutoExport.*\.(zip|json)$/i ----

  /** The characters `.` does not match in a JavaScript regular expression. */
  predicate LineTerminator(c: char) {
    c == '\n' || c == '\r' || c == '\U{2028}' || c == '\U{2029}'
  }

  predicate NoLineTerminator(s: string) {
    forall i :: 0 <= i < |s| ==> !LineTerminator(s[i])
  }

  predicate EndsWithIgnoreCase(s: string, suffix: string) {
    |s| >= |suffix| && EqualsIgnoreCase(s[|s| - |suffix|..], suffix)
  }

  const ExportPrefix: string := "HealthAutoExport"

  /** The name starts with the export prefix and ends in `.zip` or `.json`
      (letters in any case), with no line break in between. */
  predicate HaePattern(name: string) {
    && |name| >= 16 && EqualsIgnoreCase(name[..16], ExportPrefix)
    && ((|name| >= 20 && EndsWithIgnoreCase(name, ".zip") && NoLineTerminator(name[16..|name| - 4]))
        || (|name| >= 21 && EndsWithIgnoreCase(name, ".json") && NoLineTerminator(name[16..|name| - 5])))
  }

  /** The export prefix, a middle without line breaks, and `.zip` or `.json`,
      each in any letter case. */
  predicate ExportParts(prefix: string, middle: string, ext: string) {
    && EqualsIgnoreCase(prefix, ExportPrefix) && NoLineTerminator(middle)
    && (EqualsIgnoreCase(ext, ".zip") || EqualsIgnoreCase(ext, ".json"))
  }

  /** `name` cut after its first 16 characters and before its last `k`. */
  predicate SplitsAsExport(name: string, k: nat) {
    16 + k <= |name| && ExportParts(name[..16], name[16..|name| - k], name[|name| - k..])
  }

  /** A name matches exactly when it splits into the prefix, a middle and an
      extension of four or five characters: `HealthAutoExport-x.txt` does not. */
  lemma HaePatternIff(name: string)
    ensures HaePattern(name) <==> SplitsAsExport(name, 4) || SplitsAsExport(name, 5)
  {
  }

  /** Every export name the app writes, in whatever letter case, matches. */
  lemma ExportNamesMatch(prefix: string, middle: string, ext: string)
    requires EqualsIgnoreCase(prefix, ExportPrefix) && NoLineTerminator(middle)
    requires EqualsIgnoreCase(ext, ".zip") || EqualsIgnoreCase(ext, ".json")
    ensures HaePattern(prefix + middle + ext)
  {
    var name := prefix + middle + ext;
    assert name[..16] == prefix;
    assert name[|name| - |ext|..] == ext;
    if |ext| == 4 {
      assert name[16..|name| - 4] == middle;
    } else {
      assert name[16..|name| - 5] == middle;
    }
  }

  /** A name without the prefix, or with a line break before the extension,
      is not an export. */
  lemma OtherNamesDoNotMatch(name: string)
    requires |name| < 16 || !EqualsIgnoreCase(name[..16], ExportPrefix)
             || (exists i :: 16 <= i < |name| && LineTerminator(name[i]))
    ensures !HaePattern(name)
  {
    if |name| >= 16 && EqualsIgnoreCase(name[..16], ExportPrefix) {
      var i :| 16 <= i < |name| && LineTerminator(name[i]);
      if |name| >= 20 {
        if i < |name| - 4 {
          assert name[16..|name| - 4][i - 16] == name[i];
        } else {
          assert name[|name| - 4..][i - (|name| - 4)] == name[i];
        }
      }
      if |name| >= 21 {
        if i < |name| - 5 {
          assert name[16..|name| - 5][i - 16] == name[i];
        } else {
          assert name[|name| - 5..][i - (|name| - 5)] == name[i];
        }
      }
    }
  }

  /** `readdirSync(watchDir).filter(f => HAE_PATTERN.test(f))`. */
  function Matching(names: seq<string>): (r: seq<string>)
    ensures |r| <= |names|
    ensures forall i :: 0 <= i < |r| ==> HaePattern(r[i]) && r[i] in names
    ensures forall x :: x in names && HaePattern(x) ==> x in r
  {
    if |names| == 0 then []
    else
      var front := Matching(names[..|names| - 1]);
      var last := names[|names| - 1];
      assert names == names[..|names| - 1] + [last];
      if HaePattern(last) then front + [last] else front
  }

  /** The filter works name by name: the matches of a join are the matches of
      its parts, joined, so listing order and repeated names are kept. */
  lemma {:induction false} MatchingConcat(a: seq<string>, b: seq<string>)
    ensures Matching(a + b) == Matching(a) + Matching(b)
  {
    if |b| == 0 {
      assert a + b == a;
    } else {
      var b' := b[..|b| - 1];
      var x := a + b;
      MatchingConcat(a, b');
      assert x[..|x| - 1] == a + b' && x[|x| - 1] == b[|b| - 1];
      MatchingSnoc(x);
      MatchingSnoc(b);
    }
  }

  lemma MatchingSnoc(names: seq<string>)
    requires |names| > 0
    ensures var last := names[|names| - 1];
      Matching(names) == Matching(names[..|names| - 1]) + if HaePattern(last) then [last] else []
  {
  }

  /** One name is kept exactly when it matches. */
  lemma MatchingSingle(x: string)
    ensures Matching([x]) == if HaePattern(x) then [x] else []
  {
    assert [x][..0] == [];
  }

  // ---- what the tick cannot see: the host's functions and the folder ----

  /** The outcome of `JSON.parse` on a file: a syntax error, or a document
      whose `data` member is absent, null, or otherwise falsy (`None`). */
  datatype JsonDocument = SyntaxError | Document(data: Option<PayloadData>)

  /** Path joining, hashing, zip extraction and JSON parsing. */
  datatype Host = Host(
    join: (string, string) -> string,
    sha256: Bytes -> string,
    unzip: Bytes -> Option<HaePayload>,
    parseJson: Bytes -> JsonDocument)

  /** The watched directory: its listing (`None` when it cannot be read) and
      the bytes of each file that can be read, by path. */
  datatype Folder = Folder(listing: Option<seq<string>>, files: map<string, Bytes>)

  /** The clock readings of one tick: the tick's own, and for the `i`-th
      matching file the ones `ingest` and `logImport` take. */
  datatype Clock = Clock(tick: string, receivedAt: nat -> string, importedAt: nat -> string)

  /** `loadBuf`: a `.zip` goes to the extractor; anything else is parsed as
      JSON and kept only when it parses and its `data` is truthy. */
  function LoadBuf(host: Host, buf: Bytes, filename: string): (r: Option<HaePayload>)
    ensures EndsWithIgnoreCase(filename, ".zip") ==> r == host.unzip(buf)
    ensures !EndsWithIgnoreCase(filename, ".zip") ==>
      (r.Some? <==> host.parseJson(buf).Document? && host.parseJson(buf).data.Some?)
    ensures !EndsWithIgnoreCase(filename, ".zip") && r.Some? ==> r.value.data == host.parseJson(buf).data.value
  {
    if EndsWithIgnoreCase(filename, ".zip") then host.unzip(buf)
    else
      match host.parseJson(buf)
      case SyntaxError => None
      case Document(data) => if data.Some? then Some(HaePayload(data.value)) else None
  }

  /** The options `tick` passes to `ingest`. */
  function WatchOptions(target: string): IngestOptions {
    IngestOptions(target, None, Some("watch"), Some("manual"))
  }

  /** `TickResult`. */
  datatype TickResult = TickResult(tick: string, dir: string, found: nat, imported: nat, skipped: nat)

  // ---- the tick, one file at a time ----

  /** The store, the two counters, and the error `ingest` threw, if any. */
  datatype TickState = TickState(store: StoreState, imported: nat, skipped: nat, failure: Option<TimestampError>)

  /** How one file is dealt with. */
  datatype Disposition = Unreadable | AlreadyImported | Unloadable | Loaded(path: string, hash: string, payload: HaePayload)

  function Dispose(host: Host, folder: Folder, dir: string, ledger: Ledger, filename: string): Disposition {
    var path := host.join(dir, filename);
    if path !in folder.files then Unreadable
    else
      var buf := folder.files[path];
      var hash := host.sha256(buf);
      if hash in ledger then AlreadyImported
      else
        var payload := LoadBuf(host, buf, filename);
        if payload.None? then Unloadable else Loaded(path, hash, payload.value)
  }

  /** The `i`-th matching file. */
  function FileStep(n: Normalizers, host: Host, folder: Folder, dir: string, target: string, clock: Clock,
                    t: TickState, i: nat, filename: string): TickState
  {
    if t.failure.Some? then t
    else
      match Dispose(host, folder, dir, t.store.importLog, filename)
      case Loaded(path, hash, payload) =>
        var (s1, r) := IngestWith(n, t.store, payload, WatchOptions(target), clock.receivedAt(i));
        if r.Err? then TickState(s1, t.imported, t.skipped, Some(r.error))
        else
          var ledger := LogImportEntry(s1.importLog, path, hash, r.value, clock.importedAt(i));
          TickState(s1.(importLog := ledger), t.imported + 1, t.skipped, None)
      case _ => t.(skipped := t.skipped + 1)
  }

  function TickRun(n: Normalizers, host: Host, folder: Folder, dir: string, target: string, clock: Clock,
                   t: TickState, files: seq<string>): TickState
  {
    if |files| == 0 then t
    else FileStep(n, host, folder, dir, target, clock,
                  TickRun(n, host, folder, dir, target, clock, t, files[..|files| - 1]),
                  |files| - 1, files[|files| - 1])
  }

  /** The store after `tick`, and its summary or the error that escaped it. */
  function TickWith(n: Normalizers, host: Host, folder: Folder, dir: string, target: string, clock: Clock,
                    s: StoreState): (StoreState, Result<TickResult, TimestampError>)
  {
    match folder.listing
    case None => (s, Ok(TickResult(clock.tick, dir, 0, 0, 0)))
    case Some(names) =>
      var files := Matching(names);
      var t := TickRun(n, host, folder, dir, target, clock, TickState(s, 0, 0, None), files);
      if t.failure.Some? then (t.store, Err(t.failure.value))
      else (t.store, Ok(TickResult(clock.tick, dir, |files|, t.imported, t.skipped)))
  }

  /** `tick` with this model's normalisers. */
  function TickSpec(host: Host, folder: Folder, dir: string, target: string, clock: Clock, s: StoreState)
    : (StoreState, Result<TickResult, TimestampError>)
  {
    TickWith(Standard(), host, folder, dir, target, clock, s)
  }

  // ---- properties of one step ----

  /** A file that is unreadable, already in the ledger, or unloadable is
      counted as skipped and changes nothing: `ingest` is not called and
      nothing is logged. A loaded file is ingested, and only when `ingest`
      returns is its hash logged, with the counts `ingest` returned. */
  lemma FileStepEffect(n: Normalizers, host: Host, folder: Folder, dir: string, target: string, clock: Clock,
                       t: TickState, i: nat, filename: string)
    requires t.failure.None?
    ensures var q := FileStep(n, host, folder, dir, target, clock, t, i, filename);
      match Dispose(host, folder, dir, t.store.importLog, filename)
      case Loaded(path, hash, payload) =>
        var (s1, r) := IngestWith(n, t.store, payload, WatchOptions(target), clock.receivedAt(i));
        && hash !in t.store.importLog
        && (r.Ok? ==> && q.imported == t.imported + 1 && q.skipped == t.skipped && q.failure.None?
                      && q.store.importLog == t.store.importLog[hash := ImportEntry(path, clock.importedAt(i),
                           r.value.metricsAdded, r.value.sleepAdded, r.value.workoutsAdded)]
                      && q.store.metrics == s1.metrics && q.store.sleep == s1.sleep
                      && q.store.workouts == s1.workouts && q.store.syncLog == s1.syncLog)
        && (r.Err? ==> q.failure == Some(r.error) && q.store == s1 && q.store.importLog == t.store.importLog)
      case _ => q == t.(skipped := t.skipped + 1)
  {
    match Dispose(host, folder, dir, t.store.importLog, filename)
    case Loaded(path, hash, payload) =>
      SyncLogOnce(n, t.store, payload, WatchOptions(target), clock.receivedAt(i));
    case _ =>
  }

  /** A file whose hash is in the ledger is skipped without being read further. */
  lemma LedgeredFileSkipped(n: Normalizers, host: Host, folder: Folder, dir: string, target: string, clock: Clock,
                            t: TickState, i: nat, filename: string)
    requires t.failure.None?
    requires var path := host.join(dir, filename);
      path in folder.files && host.sha256(folder.files[path]) in t.store.importLog
    ensures FileStep(n, host, folder, dir, target, clock, t, i, filename) == t.(skipped := t.skipped + 1)
  {
  }

  /** A readable file whose content cannot be loaded is skipped and its hash
      is not logged, so a later tick tries it again. */
  lemma UnloadableFileNotLogged(n: Normalizers, host: Host, folder: Folder, dir: string, target: string, clock: Clock,
                                t: TickState, i: nat, filename: string)
    requires t.failure.None?
    requires var path := host.join(dir, filename);
      path in folder.files && LoadBuf(host, folder.files[path], filename).None?
    ensures var q := FileStep(n, host, folder, dir, target, clock, t, i, filename);
      q.store == t.store && q.imported == t.imported && q.skipped == t.skipped + 1
  {
  }

  // ---- properties of the run ----

  lemma {:induction false} TickRunStopped(n: Normalizers, host: Host, folder: Folder, dir: string, target: string,
                                          clock: Clock, t: TickState, files: seq<string>)
    requires t.failure.Some?
    ensures TickRun(n, host, folder, dir, target, clock, t, files) == t
  {
    if |files| > 0 {
      TickRunStopped(n, host, folder, dir, target, clock, t, files[..|files| - 1]);
    }
  }

  /** Once `ingest` has thrown, the rest of the files are not looked at. */
  lemma {:induction false} TickRunStopsAt(n: Normalizers, host: Host, folder: Folder, dir: string, target: string,
                                          clock: Clock, t: TickState, files: seq<string>, k: int)
    requires 0 <= k < |files|
    requires TickRun(n, host, folder, dir, target, clock, t, files[..k + 1]).failure.Some?
    ensures TickRun(n, host, folder, dir, target, clock, t, files)
         == TickRun(n, host, folder, dir, target, clock, t, files[..k + 1])
    decreases |files|
  {
    if |files| != k + 1 {
      var front := files[..|files| - 1];
      assert front[..k + 1] == files[..k + 1];
      TickRunStopsAt(n, host, folder, dir, target, clock, t, front, k);
    } else {
      assert files[..k + 1] == files;
    }
  }

  /** Every file of a run that ends without an error is counted exactly once. */
  lemma {:induction false} TickRunCounts(n: Normalizers, host: Host, folder: Folder, dir: string, target: string,
                                         clock: Clock, t: TickState, files: seq<string>)
    requires t.failure.None?
    ensures var q := TickRun(n, host, folder, dir, target, clock, t, files);
      q.failure.None? ==> q.imported + q.skipped == t.imported + t.skipped + |files|
  {
    if |files| > 0 {
      var front := files[..|files| - 1];
      var p := TickRun(n, host, folder, dir, target, clock, t, front);
      if p.failure.Some? {
        TickRunStopped(n, host, folder, dir, target, clock, p, []);
      } else {
        TickRunCounts(n, host, folder, dir, target, clock, t, front);
        FileStepEffect(n, host, folder, dir, target, clock, p, |files| - 1, files[|files| - 1]);
      }
    }
  }

  /** A tick that returns reports every matching name once, as imported or
      as skipped; an unreadable directory reports nothing at all. */
  lemma TickBalance(n: Normalizers, host: Host, folder: Folder, dir: string, target: string, clock: Clock,
                    s: StoreState)
    requires TickWith(n, host, folder, dir, target, clock, s).1.Ok?
    ensures var r := TickWith(n, host, folder, dir, target, clock, s).1.value;
      && r.imported + r.skipped == r.found
      && r.found == (if folder.listing.Some? then |Matching(folder.listing.value)| else 0)
      && r.tick == clock.tick && r.dir == dir
  {
    if folder.listing.Some? {
      TickRunCounts(n, host, folder, dir, target, clock, TickState(s, 0, 0, None), Matching(folder.listing.value));
    }
  }

  /** An unreadable directory: zero counts, and the store is untouched. */
  lemma UnreadableDirectory(n: Normalizers, host: Host, folder: Folder, dir: string, target: string, clock: Clock,
                            s: StoreState)
    requires folder.listing.None?
    ensures TickWith(n, host, folder, dir, target, clock, s) == (s, Ok(TickResult(clock.tick, dir, 0, 0, 0)))
  {
  }

  /** Two files with the same new, loadable content in one tick: the first is
      imported, the second is then found in the ledger and skipped. */
  lemma SameContentImportedOnce(n: Normalizers, host: Host, folder: Folder, dir: string, target: string,
                                clock: Clock, s: StoreState, a: string, b: string)
    requires folder.listing == Some([a, b]) && HaePattern(a) && HaePattern(b)
    requires var pa := host.join(dir, a); var pb := host.join(dir, b);
      && pa in folder.files && pb in folder.files && folder.files[pa] == folder.files[pb]
      && host.sha256(folder.files[pa]) !in s.importLog
      && LoadBuf(host, folder.files[pa], a).Some?
    requires TickWith(n, host, folder, dir, target, clock, s).1.Ok?
    ensures TickWith(n, host, folder, dir, target, clock, s).1 == Ok(TickResult(clock.tick, dir, 2, 1, 1))
  {
    var files := [a, b];
    assert Matching(files) == files by {
      assert files[..1] == [a];
      assert [a][..0] == [];
    }
    var t0 := TickState(s, 0, 0, None);
    assert files[..1] == [a] && files[..1][..0] == [];
    var t1 := FileStep(n, host, folder, dir, target, clock, t0, 0, a);
    assert TickRun(n, host, folder, dir, target, clock, t0, files[..1]) == t1;
    FileStepEffect(n, host, folder, dir, target, clock, t0, 0, a);
    if t1.failure.None? {
      LedgeredFileSkipped(n, host, folder, dir, target, clock, t1, 1, b);
    } else {
      TickRunStopped(n, host, folder, dir, target, clock, t1, [b]);
    }
  }

  /** Whether a later look at `filename` would skip it under `ledger`. */
  predicate Settled(host: Host, folder: Folder, dir: string, ledger: Ledger, filename: string) {
    !Dispose(host, folder, dir, ledger, filename).Loaded?
  }

  lemma SettledStays(host: Host, folder: Folder, dir: string, l1: Ledger, l2: Ledger, filename: string)
    requires Settled(host, folder, dir, l1, filename)
    requires forall h :: h in l1 ==> h in l2
    ensures Settled(host, folder, dir, l2, filename)
  {
  }

  /** After a run without errors every file it saw is settled, and the
      ledger has only grown. */
  lemma {:induction false} RunSettles(n: Normalizers, host: Host, folder: Folder, dir: string, target: string,
                                      clock: Clock, t: TickState, files: seq<string>)
    requires t.failure.None?
    requires TickRun(n, host, folder, dir, target, clock, t, files).failure.None?
    ensures var q := TickRun(n, host, folder, dir, target, clock, t, files);
      && (forall h :: h in t.store.importLog ==> h in q.store.importLog)
      && forall i :: 0 <= i < |files| ==> Settled(host, folder, dir, q.store.importLog, files[i])
  {
    if |files| > 0 {
      var front := files[..|files| - 1];
      var p := TickRun(n, host, folder, dir, target, clock, t, front);
      var q := TickRun(n, host, folder, dir, target, clock, t, files);
      if p.failure.Some? {
        TickRunStopped(n, host, folder, dir, target, clock, p, []);
        assert false;
      }
      RunSettles(n, host, folder, dir, target, clock, t, front);
      FileStepEffect(n, host, folder, dir, target, clock, p, |files| - 1, files[|files| - 1]);
      assert forall h :: h in p.store.importLog ==> h in q.store.importLog;
      forall i | 0 <= i < |files|
        ensures Settled(host, folder, dir, q.store.importLog, files[i])
      {
        if i < |files| - 1 {
          assert files[i] == front[i];
          SettledStays(host, folder, dir, p.store.importLog, q.store.importLog, files[i]);
        }
      }
    }
  }

  /** A run over settled files only skips: the store and the import count
      stay as they are. */
  lemma {:induction false} SettledRunIsIdle(n: Normalizers, host: Host, folder: Folder, dir: string, target: string,
                                            clock: Clock, t: TickState, files: seq<string>)
    requires t.failure.None?
    requires forall i :: 0 <= i < |files| ==> Settled(host, folder, dir, t.store.importLog, files[i])
    ensures TickRun(n, host, folder, dir, target, clock, t, files) == t.(skipped := t.skipped + |files|)
  {
    if |files| > 0 {
      var front := files[..|files| - 1];
      SettledRunIsIdle(n, host, folder, dir, target, clock, t, front);
    }
  }

  /** A second tick over an unchanged directory, after one that returned,
      imports nothing, skips every file and leaves the store as it was,
      whatever the clock says. */
  lemma SecondTickImportsNothing(n: Normalizers, host: Host, folder: Folder, dir: string, target: string,
                                 c1: Clock, c2: Clock, s: StoreState)
    requires TickWith(n, host, folder, dir, target, c1, s).1.Ok?
    ensures var (s1, r1) := TickWith(n, host, folder, dir, target, c1, s);
      var (s2, r2) := TickWith(n, host, folder, dir, target, c2, s1);
      && s2 == s1
      && r2 == Ok(TickResult(c2.tick, dir, r1.value.found, 0, r1.value.found))
  {
    if folder.listing.Some? {
      var files := Matching(folder.listing.value);
      var t := TickState(s, 0, 0, None);
      RunSettles(n, host, folder, dir, target, c1, t, files);
      var s1 := TickRun(n, host, folder, dir, target, c1, t, files).store;
      SettledRunIsIdle(n, host, folder, dir, target, c2, TickState(s1, 0, 0, None), files);
    }
  }

  // ---- the tick as the source runs it ----

  /** `tick` for a given triple of normalisers: the matching names in
      listing order, each read, hashed, checked against the ledger, loaded,
      ingested and logged. An error thrown by `ingest` leaves the tick at
      once, with the earlier imports in place. */
  method TickUsing(n: Normalizers, db: Vault, host: Host, folder: Folder, dir: string, target: string, clock: Clock)
    returns (r: Result<TickResult, TimestampError>)
    modifies db
    ensures (db.State(), r) == TickWith(n, host, folder, dir, target, clock, old(db.State()))
  {
    if folder.listing.None? {
      return Ok(TickResult(clock.tick, dir, 0, 0, 0));
    }
    var files := Matching(folder.listing.value);
    var found := |files|;
    var imported, skipped := 0, 0;
    ghost var start := TickState(db.State(), 0, 0, None);
    for i := 0 to |files|
      invariant TickRun(n, host, folder, dir, target, clock, start, files[..i])
             == TickState(db.State(), imported, skipped, None)
    {
      var filename := files[i];
      assert files[..i + 1][..i] == files[..i];
      ghost var before := TickState(db.State(), imported, skipped, None);
      assert TickRun(n, host, folder, dir, target, clock, start, files[..i + 1])
          == FileStep(n, host, folder, dir, target, clock, before, i, filename);
      var filepath := host.join(dir, filename);
      if filepath !in folder.files {
        skipped := skipped + 1;
      } else {
        var buf := folder.files[filepath];
        var hash := host.sha256(buf);
        if db.HasBeenImported(hash) {
          skipped := skipped + 1;
        } else {
          var payload := LoadBuf(host, buf, filename);
          if payload.None? {
            skipped := skipped + 1;
          } else {
            var result := IngestUsing(n, db, payload.value, WatchOptions(target), clock.receivedAt(i));
            if result.Err? {
              TickRunStopsAt(n, host, folder, dir, target, clock, start, files, i);
              return Err(result.error);
            }
            db.LogImport(filepath, hash, result.value, clock.importedAt(i));
            imported := imported + 1;
          }
        }
      }
    }
    assert files[..|files|] == files;
    return Ok(TickResult(clock.tick, dir, found, imported, skipped));
  }

  /** `tick`, with the clock readings and the host's functions passed in. */
  method Tick(db: Vault, host: Host, folder: Folder, dir: string, target: string, clock: Clock)
    returns (r: Result<TickResult, TimestampError>)
    modifies db
    ensures (db.State(), r) == TickSpec(host, folder, dir, target, clock, old(db.State()))
  {
    r := TickUsing(Standard(), db, host, folder, dir, target, clock);
  }
}
