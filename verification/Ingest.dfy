/** Storing an accepted upload: line deduplication, the file's conservation counts, its group links
    and the refreshed divergence rollups (forensics/ingest.py), one upload at a time. */
module Ingest {
  import opened Orders
  import opened Divergence
  import opened DivergenceCounts

  /** A validated line, and equally the AuditEvent row stored for it. `engine == ""` when it names none. */
  datatype Line = Line(
    number: nat,
    hash: string,
    engine: string,
    group: Option<nat>,
    wall: Option<nat>,
    messages: seq<string>)

  type Key = (string, string)

  function KeyOf(line: Line): Key { (line.hash, line.engine) }

  ghost function Keys(lines: seq<Line>): set<Key> { set l | l in lines :: KeyOf(l) }

  ghost predicate DistinctKeys(lines: seq<Line>) {
    forall i, j :: 0 <= i < j < |lines| ==> KeyOf(lines[i]) != KeyOf(lines[j])
  }

  // -------------------------------------------------------- duplicate dictionary

  /** `line_hash -> engines already stored under it` */
  type Duplicates = map<string, set<string>>

  function EnginesFor(d: Duplicates, hash: string): set<string> { if hash in d then d[hash] else {} }

  /** `duplicate_event_exists`: a line without an engine is a duplicate of any stored line of its hash. */
  predicate IsDuplicate(d: Duplicates, line: Line) {
    EnginesFor(d, line.hash) != {} && (line.engine != "" ==> line.engine in EnginesFor(d, line.hash))
  }

  /** `remember_duplicate_event` */
  function Remember(d: Duplicates, line: Line): Duplicates {
    d[line.hash := EnginesFor(d, line.hash) + {line.engine}]
  }

  /** `existing_duplicate_events`: the stored rows that share a hash with the upload. */
  ghost function Existing(stored: seq<Line>, lines: seq<Line>): Duplicates {
    map l | l in lines && (exists s :: s in stored && s.hash == l.hash)
      :: l.hash := set s | s in stored && s.hash == l.hash :: s.engine
  }

  datatype Kept = Kept(known: Duplicates, events: seq<Line>, duplicates: nat, groups: set<nat>)

  /** The loop of `create_events`: the dictionary, the lines that become rows, the duplicates counted and the
      groups linked so far. */
  function Keep(d: Duplicates, lines: seq<Line>): Kept {
    if lines == [] then Kept(d, [], 0, {})
    else
      var n := |lines| - 1;
      var k := Keep(d, lines[..n]);
      var l := lines[n];
      var groups := if l.group.Some? then k.groups + {l.group.value} else k.groups;
      if IsDuplicate(k.known, l) then Kept(k.known, k.events, k.duplicates + 1, groups)
      else Kept(Remember(k.known, l), k.events + [l], k.duplicates, groups)
  }

  function GroupsOf(lines: seq<Line>): set<nat> {
    set l | l in lines && l.group.Some? :: l.group.value
  }

  /** `create_events`: rows to insert, duplicates counted, and every line's group, duplicate or not. */
  method CreateEvents(d: Duplicates, lines: seq<Line>)
    returns (events: seq<Line>, duplicates: nat, groupIds: set<nat>)
    ensures Prepared(events, duplicates, groupIds) == Prepare(d, lines)
    ensures |events| + duplicates == |lines|
    ensures groupIds == GroupsOf(lines)
  {
    events, duplicates, groupIds := [], 0, {};
    var known := d;
    for i := 0 to |lines|
      invariant Keep(d, lines[..i]) == Kept(known, events, duplicates, groupIds)
    {
      var line := lines[i];
      assert lines[..i + 1][..i] == lines[..i];
      if line.group.Some? { groupIds := groupIds + {line.group.value}; }
      if IsDuplicate(known, line) {
        duplicates := duplicates + 1;
      } else {
        events := events + [line];
        known := Remember(known, line);
      }
    }
    assert lines[..|lines|] == lines;
    KeepBalance(d, lines);
  }

  /** What the loop leaves for the transaction to write. */
  datatype Prepared = Prepared(rows: seq<Line>, duplicates: nat, links: set<nat>)

  function Prepare(d: Duplicates, lines: seq<Line>): Prepared {
    var k := Keep(d, lines);
    Prepared(k.events, k.duplicates, k.groups)
  }

  /** Every line is kept or counted as a duplicate, and every line's group is linked. */
  lemma {:induction false} KeepBalance(d: Duplicates, lines: seq<Line>)
    ensures var k := Keep(d, lines); |k.events| + k.duplicates == |lines| && k.groups == GroupsOf(lines)
  {
    if lines != [] {
      var n := |lines| - 1;
      KeepBalance(d, lines[..n]);
      assert lines == lines[..n] + [lines[n]];
      assert forall l :: l in lines <==> l in lines[..n] || l == lines[n];
    }
  }

  // ----------------------------------------------------------------- what is kept

  ghost predicate Knows(d: Duplicates, k: Key) { k.1 in EnginesFor(d, k.0) }

  /** Kept lines come from the upload, are new, pairwise distinct, and the dictionary ends up
      knowing exactly what it knew before plus them. */
  lemma {:induction false} KeepLaws(d: Duplicates, lines: seq<Line>)
    ensures var k := Keep(d, lines);
      && (forall l :: l in k.events ==> l in lines && !Knows(d, KeyOf(l)))
      && DistinctKeys(k.events)
      && (forall x: Key :: Knows(k.known, x) <==> Knows(d, x) || x in Keys(k.events))
      && |k.events| <= |lines|
  {
    if lines != [] {
      var n := |lines| - 1;
      KeepLaws(d, lines[..n]);
      assert lines == lines[..n] + [lines[n]];
      var before, after := Keep(d, lines[..n]), Keep(d, lines);
      if !IsDuplicate(before.known, lines[n]) {
        assert !Knows(before.known, KeyOf(lines[n]));
        assert Keys(after.events) == Keys(before.events) + {KeyOf(lines[n])} by { KeysSnoc(before.events, lines[n]); }
        DistinctSnoc(before.events, lines[n]);
      }
    }
  }

  lemma {:induction false} KeysSnoc(lines: seq<Line>, l: Line)
    ensures Keys(lines + [l]) == Keys(lines) + {KeyOf(l)}
  {
    assert forall x :: x in lines + [l] <==> x in lines || x == l;
    assert l in lines + [l];
    forall k | k in Keys(lines) ensures k in Keys(lines + [l]) {
      var x :| x in lines && KeyOf(x) == k;
      assert x in lines + [l];
    }
  }

  lemma {:induction false} KeysConcat(a: seq<Line>, b: seq<Line>)
    ensures Keys(a + b) == Keys(a) + Keys(b)
  {
    assert forall x :: x in a + b <==> x in a || x in b;
    forall k | k in Keys(a) + Keys(b) ensures k in Keys(a + b) {
      if k in Keys(a) { var x :| x in a && KeyOf(x) == k; assert x in a + b; }
      else { var x :| x in b && KeyOf(x) == k; assert x in a + b; }
    }
  }

  lemma {:induction false} DistinctSnoc(lines: seq<Line>, l: Line)
    requires DistinctKeys(lines) && KeyOf(l) !in Keys(lines)
    ensures DistinctKeys(lines + [l])
  {
    forall i | 0 <= i < |lines| ensures KeyOf(lines[i]) != KeyOf(l) { assert lines[i] in lines; }
  }

  /** A line is covered when its own key is stored, or, if it names no engine, its hash is. */
  ghost predicate Covered(line: Line, keys: set<Key>) {
    if line.engine != "" then KeyOf(line) in keys else exists k :: k in keys && k.0 == line.hash
  }

  lemma {:induction false} CoveredGrows(line: Line, a: set<Key>, b: set<Key>)
    requires Covered(line, a) && a <= b
    ensures Covered(line, b)
  {
  }

  ghost predicate KnowsExactly(d: Duplicates, lines: seq<Line>, keys: set<Key>) {
    forall k: Key :: (exists l :: l in lines && l.hash == k.0) ==> (Knows(d, k) <==> k in keys)
  }

  lemma {:induction false} ExistingIsExact(stored: seq<Line>, lines: seq<Line>)
    ensures KnowsExactly(Existing(stored, lines), lines, Keys(stored))
  {
    var d := Existing(stored, lines);
    forall k: Key | exists l :: l in lines && l.hash == k.0 ensures Knows(d, k) <==> k in Keys(stored) {
      if Knows(d, k) {
        var s :| s in stored && s.hash == k.0 && s.engine == k.1;
        assert KeyOf(s) == k;
      }
      if k in Keys(stored) {
        var s :| s in stored && KeyOf(s) == k;
        var l :| l in lines && l.hash == k.0;
        assert l.hash in d;
      }
    }
  }

  /** Every line of an upload is covered once its kept lines are stored. */
  lemma {:induction false} KeepCovers(d: Duplicates, lines: seq<Line>, keys: set<Key>)
    requires KnowsExactly(d, lines, keys)
    ensures forall l :: l in lines ==> Covered(l, keys + Keys(Keep(d, lines).events))
  {
    if lines != [] {
      var n := |lines| - 1;
      assert lines == lines[..n] + [lines[n]] && lines[n] in lines;
      assert forall l :: l in lines[..n] ==> l in lines;
      KeepCovers(d, lines[..n], keys);
      KeepLaws(d, lines[..n]);
      KeepLaws(d, lines);
      var before, after := Keep(d, lines[..n]), Keep(d, lines);
      KeysSnoc(before.events, lines[n]);
      forall l | l in lines[..n] ensures Covered(l, keys + Keys(after.events)) {
        CoveredGrows(l, keys + Keys(before.events), keys + Keys(after.events));
      }
      if IsDuplicate(before.known, lines[n]) {
        var engine :|
          engine in EnginesFor(before.known, lines[n].hash) && (lines[n].engine != "" ==> engine == lines[n].engine);
        var k: Key := (lines[n].hash, engine);
        assert Knows(before.known, k);
        assert k in keys + Keys(after.events);
      }
    }
  }

  // ------------------------------------------------------------------ one upload

  datatype Upload = Upload(sha: string, lines: seq<Line>)

  /** An AuditEvent row and the file it belongs to. */
  datatype StoredRow = StoredRow(file: string, line: Line)

  /** An AuditFile row: its lines, its duplicate count and its group links. */
  datatype FileRow = FileRow(lines: seq<Line>, duplicates: nat, groups: set<nat>)

  datatype Db = Db(rows: seq<StoredRow>, files: map<string, FileRow>, counts: map<nat, nat>) {
    function Events(): seq<Line> { LinesOf(rows) }
  }

  const EMPTY_DB := Db([], map[], map[])

  function LinesOf(rows: seq<StoredRow>): seq<Line> {
    if rows == [] then [] else LinesOf(rows[..|rows| - 1]) + [rows[|rows| - 1].line]
  }

  function Tagged(file: string, lines: seq<Line>): seq<StoredRow> {
    if lines == [] then [] else Tagged(file, lines[..|lines| - 1]) + [StoredRow(file, lines[|lines| - 1])]
  }

  /** The stored rows of one file. */
  function OfFile(rows: seq<StoredRow>, file: string): seq<StoredRow> {
    Filter(rows, (r: StoredRow) => r.file == file)
  }

  lemma {:induction false} LinesConcat(a: seq<StoredRow>, b: seq<StoredRow>)
    ensures LinesOf(a + b) == LinesOf(a) + LinesOf(b)
  {
    if b == [] {
      assert a + b == a;
    } else {
      assert (a + b)[..|a + b| - 1] == a + b[..|b| - 1];
      LinesConcat(a, b[..|b| - 1]);
    }
  }

  lemma {:induction false} TaggedLines(file: string, lines: seq<Line>)
    ensures LinesOf(Tagged(file, lines)) == lines && |Tagged(file, lines)| == |lines|
    ensures forall r :: r in Tagged(file, lines) ==> r.file == file && r.line in lines
  {
    if lines != [] {
      var n := |lines| - 1;
      TaggedLines(file, lines[..n]);
      var before := Tagged(file, lines[..n]);
      assert (before + [StoredRow(file, lines[n])])[..|before|] == before;
      assert lines == lines[..n] + [lines[n]];
    }
  }

  /** Inserting rows under a file adds exactly their lines to what is stored. */
  lemma {:induction false} InsertedLines(rows: seq<StoredRow>, file: string, lines: seq<Line>)
    ensures LinesOf(rows + Tagged(file, lines)) == LinesOf(rows) + lines
  {
    LinesConcat(rows, Tagged(file, lines));
    TaggedLines(file, lines);
  }

  ghost function SightingsIn(events: seq<Line>, g: nat): seq<Sighting> {
    if events == [] then []
    else
      var n := |events| - 1;
      var l := events[n];
      SightingsIn(events[..n], g) + if l.group == Some(g) then [Sighting(l.engine, l.wall, l.messages)] else []
  }

  ghost function DivergentCount(events: seq<Line>, g: nat): nat { |DivergentMessages(SightingsIn(events, g))| }

  ghost function CountIn(db: Db, g: nat): nat { if g in db.counts then db.counts[g] else 0 }

  ghost function ToInsert(events: seq<Line>, lines: seq<Line>): Prepared { Prepare(Existing(events, lines), lines) }

  ghost function RowsToInsert(events: seq<Line>, lines: seq<Line>): seq<Line> { ToInsert(events, lines).rows }

  /** `refresh_group_rollups`: the count of every group the upload resolves to. */
  ghost function Rollups(events: seq<Line>, lines: seq<Line>): map<nat, nat> {
    map g | g in GroupsOf(lines) :: DivergentCount(events, g)
  }

  /** What a transaction that prepared `work` and `counts` makes visible. */
  ghost function Written(db: Db, up: Upload, work: Prepared, counts: map<nat, nat>): Db {
    Db(db.rows + Tagged(up.sha, work.rows),
       db.files[up.sha := FileRow(up.lines, work.duplicates, work.links)],
       db.counts + counts)
  }

  /** The committed effect of one accepted upload; a known file hash changes nothing. */
  ghost function Store(db: Db, up: Upload): Db {
    if up.sha in db.files then db
    else
      var work := ToInsert(db.Events(), up.lines);
      Written(db, up, work, Rollups(db.Events() + work.rows, up.lines))
  }

  ghost function StoreAll(ups: seq<Upload>): Db {
    if ups == [] then EMPTY_DB else Store(StoreAll(ups[..|ups| - 1]), ups[|ups| - 1])
  }

  // --------------------------------------------------------- laws of every history

  ghost predicate CountsExact(db: Db) { forall g :: CountIn(db, g) == DivergentCount(db.Events(), g) }

  /** A file's stored rows and its duplicate count add up to its lines, and it links every group any of
      them resolves to. */
  ghost predicate FileBalances(db: Db, s: string)
    requires s in db.files
  {
    var f := db.files[s];
    |OfFile(db.rows, s)| + f.duplicates == |f.lines| && f.groups == GroupsOf(f.lines)
  }

  /** Every stored row is a line of the file it belongs to. */
  ghost predicate RowsBelong(db: Db) {
    forall r :: r in db.rows ==> r.file in db.files && r.line in db.files[r.file].lines
  }

  ghost predicate FilesBalance(db: Db) { RowsBelong(db) && forall s :: s in db.files ==> FileBalances(db, s) }

  /** The stored rows are exactly the accepted lines, each once. */
  ghost predicate StoredExactly(db: Db) {
    && (forall s, l :: s in db.files && l in db.files[s].lines ==> Covered(l, Keys(db.Events())))
    && (forall l :: l in db.Events() ==> exists s :: s in db.files && l in db.files[s].lines)
  }

  ghost predicate Sound(db: Db) {
    DistinctKeys(db.Events()) && CountsExact(db) && FilesBalance(db) && StoredExactly(db)
  }

  lemma {:induction false} SightingsConcat(a: seq<Line>, b: seq<Line>, g: nat)
    ensures SightingsIn(a + b, g) == SightingsIn(a, g) + SightingsIn(b, g)
  {
    if b == [] {
      assert a + b == a;
    } else {
      var n := |b| - 1;
      assert (a + b)[..|a + b| - 1] == a + b[..n];
      SightingsConcat(a, b[..n], g);
    }
  }

  lemma {:induction false} SightingsElsewhere(b: seq<Line>, g: nat)
    requires g !in GroupsOf(b)
    ensures SightingsIn(b, g) == []
  {
    if b != [] {
      var n := |b| - 1;
      assert b == b[..n] + [b[n]] && b[n] in b;
      assert forall l :: l in b[..n] ==> l in b;
      SightingsElsewhere(b[..n], g);
    }
  }

  lemma {:induction false} DistinctAppend(events: seq<Line>, kept: seq<Line>)
    requires DistinctKeys(events) && DistinctKeys(kept)
    requires forall l :: l in kept ==> KeyOf(l) !in Keys(events)
    ensures DistinctKeys(events + kept)
  {
    forall i, j | 0 <= i < |events| && 0 <= j < |kept| ensures KeyOf(events[i]) != KeyOf(kept[j]) {
      assert events[i] in events && kept[j] in kept;
    }
  }

  lemma {:induction false} KeptIsNew(events: seq<Line>, lines: seq<Line>)
    ensures var kept := RowsToInsert(events, lines);
      && DistinctKeys(kept) && |kept| <= |lines|
      && (forall l :: l in kept ==> l in lines && KeyOf(l) !in Keys(events))
      && (forall l :: l in lines ==> Covered(l, Keys(events + kept)))
  {
    var d := Existing(events, lines);
    KeepLaws(d, lines);
    ExistingIsExact(events, lines);
    KeepCovers(d, lines, Keys(events));
    KeysConcat(events, RowsToInsert(events, lines));
    forall l | l in RowsToInsert(events, lines) ensures KeyOf(l) !in Keys(events) {
      assert l in lines && !Knows(d, KeyOf(l));
    }
  }

  lemma {:induction false} StoreCounts(db: Db, up: Upload)
    requires CountsExact(db)
    ensures CountsExact(Store(db, up))
  {
    if up.sha !in db.files {
      var kept := RowsToInsert(db.Events(), up.lines);
      KeptIsNew(db.Events(), up.lines);
      InsertedLines(db.rows, up.sha, kept);
      forall g ensures CountIn(Store(db, up), g) == DivergentCount(db.Events() + kept, g) {
        assert CountIn(db, g) == DivergentCount(db.Events(), g);
        if g !in GroupsOf(up.lines) {
          assert g !in Store(db, up).counts || g in db.counts;
          assert g !in GroupsOf(kept);
          SightingsConcat(db.Events(), kept, g);
          SightingsElsewhere(kept, g);
          assert SightingsIn(db.Events(), g) + [] == SightingsIn(db.Events(), g);
        }
      }
    }
  }

  lemma {:induction false} StoreStoredExactly(db: Db, up: Upload)
    requires StoredExactly(db)
    ensures StoredExactly(Store(db, up))
  {
    if up.sha !in db.files {
      var kept := RowsToInsert(db.Events(), up.lines);
      KeptIsNew(db.Events(), up.lines);
      KeysConcat(db.Events(), kept);
      InsertedLines(db.rows, up.sha, kept);
      var after := Store(db, up);
      forall s, l | s in after.files && l in after.files[s].lines ensures Covered(l, Keys(after.Events())) {
        if s != up.sha { CoveredGrows(l, Keys(db.Events()), Keys(after.Events())); }
      }
      forall l | l in after.Events() ensures exists s :: s in after.files && l in after.files[s].lines {
        if l in db.Events() {
          var s :| s in db.files && l in db.files[s].lines;
          assert s in after.files && l in after.files[s].lines;
        } else {
          assert l in kept && l in after.files[up.sha].lines;
        }
      }
    }
  }

  lemma {:induction false} OfFileInsert(rows: seq<StoredRow>, file: string, lines: seq<Line>, s: string)
    ensures |OfFile(rows + Tagged(file, lines), s)| == |OfFile(rows, s)| + if s == file then |lines| else 0
  {
    var mine := (r: StoredRow) => r.file == s;
    FilterConcat(rows, Tagged(file, lines), mine);
    TaggedLines(file, lines);
    if s == file { FilterAll(Tagged(file, lines), mine); } else { FilterNone(Tagged(file, lines), mine); }
  }

  lemma {:induction false} NoRowsYet(db: Db, s: string)
    requires RowsBelong(db) && s !in db.files
    ensures OfFile(db.rows, s) == []
  {
    FilterNone(db.rows, (r: StoredRow) => r.file == s);
  }

  lemma {:induction false} StoreBalance(db: Db, up: Upload)
    requires FilesBalance(db)
    ensures FilesBalance(Store(db, up))
  {
    if up.sha !in db.files {
      var work, after := ToInsert(db.Events(), up.lines), Store(db, up);
      KeepBalance(Existing(db.Events(), up.lines), up.lines);
      KeepLaws(Existing(db.Events(), up.lines), up.lines);
      TaggedLines(up.sha, work.rows);
      forall s | s in after.files ensures FileBalances(after, s) {
        OfFileInsert(db.rows, up.sha, work.rows, s);
        if s == up.sha { NoRowsYet(db, s); } else { assert FileBalances(db, s); }
      }
    }
  }

  lemma {:induction false} StoreSound(db: Db, up: Upload)
    requires Sound(db)
    ensures Sound(Store(db, up))
  {
    StoreCounts(db, up);
    StoreStoredExactly(db, up);
    StoreBalance(db, up);
    if up.sha !in db.files {
      var kept := RowsToInsert(db.Events(), up.lines);
      KeptIsNew(db.Events(), up.lines);
      DistinctAppend(db.Events(), kept);
      InsertedLines(db.rows, up.sha, kept);
    }
  }

  /** EVERY SERIAL HISTORY: no key twice, exact rollups, balanced files, exactly the accepted lines. */
  lemma {:induction false} StoreAllSound(ups: seq<Upload>)
    ensures Sound(StoreAll(ups))
  {
    if ups == [] {
      forall g ensures DivergentCount([], g) == 0 { assert DivergentMessages([]) == {}; }
    } else {
      StoreAllSound(ups[..|ups| - 1]);
      StoreSound(StoreAll(ups[..|ups| - 1]), ups[|ups| - 1]);
    }
  }

  /** The first upload under its file hash. */
  ghost predicate IsFirst(ups: seq<Upload>, i: nat) {
    i < |ups| && forall j :: 0 <= j < i ==> ups[j].sha != ups[i].sha
  }

  ghost predicate WasUploaded(ups: seq<Upload>, sha: string) { exists i :: 0 <= i < |ups| && ups[i].sha == sha }

  lemma {:induction false} WasUploadedLast(ups: seq<Upload>, sha: string)
    requires ups != []
    ensures WasUploaded(ups, sha) <==> WasUploaded(ups[..|ups| - 1], sha) || ups[|ups| - 1].sha == sha
  {
    var n := |ups| - 1;
    if WasUploaded(ups[..n], sha) {
      var i :| 0 <= i < n && ups[..n][i].sha == sha;
      assert ups[i].sha == sha;
    }
    if WasUploaded(ups, sha) {
      var i :| 0 <= i < |ups| && ups[i].sha == sha;
      assert i < n ==> ups[..n][i].sha == sha;
    }
  }

  /** What is accepted: every file hash ever uploaded ... */
  lemma {:induction false} StoreAllFiles(ups: seq<Upload>, sha: string)
    ensures sha in StoreAll(ups).files <==> WasUploaded(ups, sha)
  {
    if ups != [] {
      StoreAllFiles(ups[..|ups| - 1], sha);
      WasUploadedLast(ups, sha);
    }
  }

  /** ... with the lines of the first upload under it. */
  lemma {:induction false} FirstUploadWins(ups: seq<Upload>, i: nat)
    requires IsFirst(ups, i)
    ensures ups[i].sha in StoreAll(ups).files && StoreAll(ups).files[ups[i].sha].lines == ups[i].lines
  {
    var n := |ups| - 1;
    StoreAllFiles(ups[..n], ups[i].sha);
    if i < n {
      assert ups[..n][i] == ups[i];
      FirstUploadWins(ups[..n], i);
    } else {
      assert !WasUploaded(ups[..n], ups[i].sha);
    }
  }

  /** A line is taken for a duplicate exactly when it is covered by what was stored before it or kept before it in its
      own upload. */
  lemma {:induction false} DuplicateExactly(d: Duplicates, lines: seq<Line>, keys: set<Key>, n: nat)
    requires KnowsExactly(d, lines, keys) && n < |lines|
    ensures IsDuplicate(Keep(d, lines[..n]).known, lines[n]) <==>
            Covered(lines[n], keys + Keys(Keep(d, lines[..n]).events))
    ensures Keep(d, lines[..n + 1]).events ==
            if Covered(lines[n], keys + Keys(Keep(d, lines[..n]).events)) then Keep(d, lines[..n]).events
            else Keep(d, lines[..n]).events + [lines[n]]
  {
    KeepLaws(d, lines[..n]);
    assert lines[n] in lines;
    assert lines[..n + 1][..n] == lines[..n];
    var k := Keep(d, lines[..n]);
    var seen := keys + Keys(k.events);
    forall x: Key | x.0 == lines[n].hash ensures Knows(k.known, x) <==> x in seen {
      assert Knows(d, x) <==> x in keys;
    }
    HashKnown(k.known, lines[n].hash, seen);
  }

  lemma {:induction false} HashKnown(d: Duplicates, hash: string, keys: set<Key>)
    requires forall x: Key :: x.0 == hash ==> (Knows(d, x) <==> x in keys)
    ensures EnginesFor(d, hash) != {} <==> exists k :: k in keys && k.0 == hash
    ensures forall engine :: engine in EnginesFor(d, hash) <==> (hash, engine) in keys
  {
    forall engine ensures engine in EnginesFor(d, hash) <==> (hash, engine) in keys {
      var x: Key := (hash, engine);
      assert Knows(d, x) <==> x in keys;
    }
    if EnginesFor(d, hash) != {} {
      var engine :| engine in EnginesFor(d, hash);
      assert (hash, engine) in keys;
    }
    if k :| k in keys && k.0 == hash {
      assert k == (hash, k.1);
      assert k.1 in EnginesFor(d, hash);
    }
  }

  // ------------------------------------------------------------------ append-only logs

  /** Lines whose engine is named and already stored add nothing and teach the dictionary nothing new. */
  lemma {:induction false} KeepKnown(d: Duplicates, known: seq<Line>, more: seq<Line>)
    requires forall l :: l in known ==> l.engine != "" && Knows(d, KeyOf(l))
    ensures Keep(d, known + more).events == Keep(d, more).events
    ensures Keep(d, known + more).known == Keep(d, more).known
  {
    if more == [] {
      assert known + more == known;
      KeepNothing(d, known);
    } else {
      var n := |more| - 1;
      assert (known + more)[..|known + more| - 1] == known + more[..n];
      KeepKnown(d, known, more[..n]);
    }
  }

  lemma {:induction false} KeepNothing(d: Duplicates, lines: seq<Line>)
    requires forall l :: l in lines ==> l.engine != "" && Knows(d, KeyOf(l))
    ensures Keep(d, lines).known == d && Keep(d, lines).events == []
  {
    if lines != [] {
      var n := |lines| - 1;
      assert lines == lines[..n] + [lines[n]] && lines[n] in lines;
      KeepNothing(d, lines[..n]);
    }
  }

  lemma {:induction false} StoredPrefixAddsNothing(events: seq<Line>, stored: seq<Line>, more: seq<Line>)
    requires forall l :: l in stored + more ==> l.engine != ""
    requires forall l :: l in stored ==> KeyOf(l) in Keys(events)
    ensures RowsToInsert(events, stored + more) == RowsToInsert(events, more)
  {
    var d, e := Existing(events, stored + more), Existing(events, more);
    ExistingIsExact(events, stored + more);
    ExistingIsExact(events, more);
    forall l | l in stored ensures l.engine != "" && Knows(d, KeyOf(l)) {
      assert l in stored + more;
    }
    KeepKnown(d, stored, more);
    forall l | l in more ensures l.engine != "" && (Knows(d, KeyOf(l)) <==> Knows(e, KeyOf(l))) {
      assert l in stored + more;
    }
    KeepDependsOnOwnKeys(d, e, more);
  }

  /** At any time after a file was accepted, uploading its lines L again as L ++ M stores exactly the rows that
      uploading M alone would. */
  lemma {:induction false} ReuploadStoresOnlyNew(ups: seq<Upload>, sha: string, more: seq<Line>)
    requires sha in StoreAll(ups).files
    requires forall l :: l in StoreAll(ups).files[sha].lines + more ==> l.engine != ""
    ensures var db := StoreAll(ups);
      RowsToInsert(db.Events(), db.files[sha].lines + more) == RowsToInsert(db.Events(), more)
  {
    StoreAllSound(ups);
    var db := StoreAll(ups);
    forall l | l in db.files[sha].lines ensures KeyOf(l) in Keys(db.Events()) {
      assert l in db.files[sha].lines + more;
      assert Covered(l, Keys(db.Events()));
    }
    StoredPrefixAddsNothing(db.Events(), db.files[sha].lines, more);
  }

  /** For lines that name an engine, only the dictionary's answers on their own keys matter. */
  lemma {:induction false} KeepDependsOnOwnKeys(d: Duplicates, e: Duplicates, lines: seq<Line>)
    requires forall l :: l in lines ==> l.engine != "" && (Knows(d, KeyOf(l)) <==> Knows(e, KeyOf(l)))
    ensures Keep(d, lines).events == Keep(e, lines).events
  {
    if lines != [] {
      var n := |lines| - 1;
      assert lines == lines[..n] + [lines[n]] && lines[n] in lines;
      KeepDependsOnOwnKeys(d, e, lines[..n]);
      KeepLaws(d, lines[..n]);
      KeepLaws(e, lines[..n]);
      var a, b := Keep(d, lines[..n]), Keep(e, lines[..n]);
      assert Knows(a.known, KeyOf(lines[n])) <==> Knows(b.known, KeyOf(lines[n]));
    }
  }

  // ---------------------------------------------------------------------- the rollup

  /** `refresh_group_rollups`: the streaming pass over the rows of the touched groups gives exactly the rollups.
      A group id of zero is dropped, as the database never assigns it. */
  method RefreshGroupRollups(events: seq<Line>, groupIds: seq<nat>, ghost lines: seq<Line>)
    returns (counts: map<nat, nat>)
    requires forall g :: g in groupIds <==> g in GroupsOf(lines)
    ensures counts == map g | g in GroupsOf(lines) && g != 0 :: DivergentCount(events, g)
    ensures 0 !in GroupsOf(lines) ==> counts == Rollups(events, lines)
  {
    var rows := GroupedRows(events);
    counts := DivergentCounts(rows, groupIds);
  }

  /** The grouped events as the streaming pass reads them. */
  method GroupedRows(events: seq<Line>) returns (rows: seq<Row>)
    ensures forall g :: GroupEvents(rows, g) == SightingsIn(events, g)
  {
    rows := [];
    for i := 0 to |events|
      invariant forall g :: GroupEvents(rows, g) == SightingsIn(events[..i], g)
    {
      var l := events[i];
      assert events[..i + 1][..i] == events[..i];
      forall g ensures SightingsIn(events[..i], g) + [] == SightingsIn(events[..i], g) {}
      if l.group.Some? {
        assert (rows + [Row(l.group.value, Sighting(l.engine, l.wall, l.messages))])[..|rows|] == rows;
        forall g ensures GroupEvents(rows, g) + [] == GroupEvents(rows, g) {}
        rows := rows + [Row(l.group.value, Sighting(l.engine, l.wall, l.messages))];
      }
    }
    assert events[..|events|] == events;
  }
}
