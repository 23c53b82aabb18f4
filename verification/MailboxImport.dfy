/**
 Legacy mailbox import across crashes and repeated runs: every line is stored at most once, and a
 mailbox file disappears only after all of its lines are stored.
 */
module MailboxImport {
  import opened Prelude
  import opened MessageLedger

  /** The mailbox directory, as first found, holds this message at this line. */
  ghost predicate LineAt(files: Mailbox, f: string, number: nat, text: string, m: Message) {
    && f in files && files[f].Lines? && 1 <= number <= |files[f].lines|
    && files[f].lines[number - 1] == Line(text, Good(m))
  }

  ghost predicate UniqueKeys(rows: seq<Row>) {
    forall i, j :: 0 <= i < j < |rows| && rows[i].key.Some? ==> rows[i].key != rows[j].key
  }

  /** Rows with a legacy key carry the message of that line. */
  ghost predicate Faithful(files: Mailbox, rows: seq<Row>) {
    forall i :: 0 <= i < |rows| && rows[i].key.Some? && rows[i].key.value.Legacy? ==>
      LineAt(files, rows[i].key.value.file, rows[i].key.value.number, rows[i].key.value.text, rows[i].message)
  }

  ghost predicate AllGood(lines: seq<Line>) {
    forall n :: 0 <= n < |lines| ==> lines[n].parsed.Blank? || lines[n].parsed.Good?
  }

  function LineKey(f: string, lines: seq<Line>, n: nat): Key
    requires n < |lines|
  {
    Legacy(f, n + 1, lines[n].text)
  }

  ghost predicate AllStored(rows: seq<Row>, f: string, lines: seq<Line>) {
    forall n :: 0 <= n < |lines| && lines[n].parsed.Good? ==> HasKey(rows, LineKey(f, lines, n))
  }

  /** Files are only ever removed, and a removed file is stored line by line. */
  ghost predicate FilesKept(files: Mailbox, w: World) {
    && (forall f :: f in w.files ==> f in files && w.files[f] == files[f])
    && (forall f :: f in files && f !in w.files ==>
          files[f].Lines? && AllGood(files[f].lines) && AllStored(w.rows, f, files[f].lines))
  }

  function PutOf(f: string, lines: seq<Line>, n: nat): ImportOp
    requires n < |lines| && lines[n].parsed.Good?
  {
    Put(f, n + 1, lines[n].text, lines[n].parsed.message)
  }

  /** Before a file is unlinked, each of its lines is stored or still to be stored. */
  ghost predicate Covered(files: Mailbox, rows: seq<Row>, before: seq<ImportOp>, f: string) {
    && f in files && files[f].Lines? && AllGood(files[f].lines)
    && forall n :: 0 <= n < |files[f].lines| && files[f].lines[n].parsed.Good? ==>
         HasKey(rows, LineKey(f, files[f].lines, n)) || PutOf(f, files[f].lines, n) in before
  }

  ghost predicate OpsSound(files: Mailbox, rows: seq<Row>, ops: seq<ImportOp>) {
    forall i :: 0 <= i < |ops| ==> OpSound(files, rows, ops[..i], ops[i])
  }

  ghost predicate OpSound(files: Mailbox, rows: seq<Row>, before: seq<ImportOp>, op: ImportOp) {
    match op
    case Put(f, number, text, m) => LineAt(files, f, number, text, m)
    case Unlink(f) => Covered(files, rows, before, f)
  }

  ghost predicate ImportInv(files: Mailbox, w: World) {
    && UniqueKeys(w.rows) && Faithful(files, w.rows) && FilesKept(files, w)
    && forall p :: p in w.importers ==> OpsSound(files, w.rows, w.importers[p])
  }

  // ---------------------------------------------------------------- programs are sound

  lemma {:induction false} PutsExact(f: string, lines: seq<Line>, faults: Faults, n: nat)
    requires n <= |lines|
    ensures forall i :: 0 <= i < n && Storable(f, lines, i, faults) ==> PutOf(f, lines, i) in Puts(f, lines, faults, n)
    ensures forall op :: op in Puts(f, lines, faults, n) ==>
      op.Put? && op.file == f && 1 <= op.number <= n && lines[op.number - 1] == Line(op.text, Good(op.message))
  {
    if n > 0 {
      PutsExact(f, lines, faults, n - 1);
    }
  }

  lemma FileOpsSound(files: Mailbox, rows: seq<Row>, f: string, faults: Faults)
    requires f in files
    ensures OpsSound(files, rows, FileOps(f, files[f], faults))
  {
    if files[f].Lines? {
      var lines := files[f].lines;
      var puts := Puts(f, lines, faults, |lines|);
      var ops := FileOps(f, files[f], faults);
      PutsExact(f, lines, faults, |lines|);
      forall i | 0 <= i < |ops|
        ensures OpSound(files, rows, ops[..i], ops[i])
      {
        if i < |puts| {
          assert ops[i] in puts;
        } else {
          assert ops[..i] == puts;
        }
      }
    }
  }

  lemma SoundConcat(files: Mailbox, rows: seq<Row>, a: seq<ImportOp>, b: seq<ImportOp>)
    requires OpsSound(files, rows, a) && OpsSound(files, rows, b)
    ensures OpsSound(files, rows, a + b)
  {
    forall i | 0 <= i < |a + b|
      ensures OpSound(files, rows, (a + b)[..i], (a + b)[i])
    {
      if i < |a| {
        assert (a + b)[..i] == a[..i];
        assert OpSound(files, rows, a[..i], a[i]);
      } else {
        assert (a + b)[..i] == a + b[..i - |a|];
        assert OpSound(files, rows, b[..i - |a|], b[i - |a|]);
      }
    }
  }

  lemma {:induction false} ProgramSound(files: Mailbox, now: Mailbox, rows: seq<Row>, order: seq<string>, faults: Faults)
    requires forall f :: f in now ==> f in files && now[f] == files[f]
    ensures OpsSound(files, rows, Program(order, now, faults))
    decreases |order|
  {
    if order != [] {
      var n := |order| - 1;
      ProgramSound(files, now, rows, order[..n], faults);
      if order[n] in now {
        FileOpsSound(files, rows, order[n], faults);
        SoundConcat(files, rows, Program(order[..n], now, faults), FileOps(order[n], now[order[n]], faults));
      } else {
        assert Program(order[..n], now, faults) + [] == Program(order[..n], now, faults);
      }
    }
  }

  // ---------------------------------------------------------------- every step keeps the invariant

  ghost predicate KeysGrow(rows: seq<Row>, rows': seq<Row>) {
    forall k: Key :: HasKey(rows, k) ==> HasKey(rows', k)
  }

  lemma InsertGrows(rows: seq<Row>, m: Message, key: Option<Key>)
    ensures KeysGrow(rows, Insert(rows, m, key))
    ensures key.Some? ==> HasKey(Insert(rows, m, key), key.value)
  {
    var rows' := Insert(rows, m, key);
    if rows' != rows {
      assert rows'[|rows|].key == key;
      forall k: Key | HasKey(rows, k)
        ensures HasKey(rows', k)
      {
        var i :| 0 <= i < |rows| && rows[i].key == Some(k);
        assert rows'[i] == rows[i];
      }
    }
  }

  lemma GrowthKeepsOps(files: Mailbox, rows: seq<Row>, rows': seq<Row>, ops: seq<ImportOp>)
    requires OpsSound(files, rows, ops) && KeysGrow(rows, rows')
    ensures OpsSound(files, rows', ops)
  {
    forall i | 0 <= i < |ops|
      ensures OpSound(files, rows', ops[..i], ops[i])
    {
      assert OpSound(files, rows, ops[..i], ops[i]);
    }
  }

  lemma GrowthKeepsFiles(files: Mailbox, w: World, w': World)
    requires FilesKept(files, w) && KeysGrow(w.rows, w'.rows) && w'.files == w.files
    ensures FilesKept(files, w')
  {
    forall f | f in files && f !in w'.files
      ensures files[f].Lines? && AllGood(files[f].lines) && AllStored(w'.rows, f, files[f].lines)
    {
      assert AllStored(w.rows, f, files[f].lines);
    }
  }

  lemma GrowthKeeps(files: Mailbox, w: World, rows: seq<Row>)
    requires ImportInv(files, w) && KeysGrow(w.rows, rows) && UniqueKeys(rows) && Faithful(files, rows)
    ensures ImportInv(files, w.(rows := rows))
  {
    GrowthKeepsFiles(files, w, w.(rows := rows));
    forall p | p in w.importers
      ensures OpsSound(files, rows, w.importers[p])
    {
      GrowthKeepsOps(files, w.rows, rows, w.importers[p]);
    }
  }

  lemma InsertKeeps(files: Mailbox, w: World, m: Message, key: Option<Key>)
    requires ImportInv(files, w)
    requires key.Some? && key.value.Legacy? ==> LineAt(files, key.value.file, key.value.number, key.value.text, m)
    ensures ImportInv(files, w.(rows := Insert(w.rows, m, key)))
  {
    var rows := Insert(w.rows, m, key);
    InsertGrows(w.rows, m, key);
    assert UniqueKeys(rows) by {
      assert forall i :: 0 <= i < |w.rows| && w.rows[i].key.Some? ==> HasKey(w.rows, w.rows[i].key.value);
    }
    GrowthKeeps(files, w, rows);
  }

  lemma ReadKeeps(files: Mailbox, w: World, agent: Agent, left: nat)
    requires ImportInv(files, w)
    ensures ImportInv(files, w.(rows := Marked(w.rows, agent, left)))
  {
    MarkedOnlyConsumes(w.rows, agent, left);
    var rows := Marked(w.rows, agent, left);
    assert forall i :: 0 <= i < |rows| ==> rows[i].key == w.rows[i].key && rows[i].message == w.rows[i].message;
    assert KeysGrow(w.rows, rows) by {
      forall k: Key | HasKey(w.rows, k)
        ensures HasKey(rows, k)
      {
        var i :| 0 <= i < |w.rows| && w.rows[i].key == Some(k);
        assert rows[i].key == Some(k);
      }
    }
    GrowthKeeps(files, w, rows);
  }

  lemma UnlinkKeeps(files: Mailbox, w: World, f: string)
    requires ImportInv(files, w) && Covered(files, w.rows, [], f)
    ensures ImportInv(files, w.(files := w.files - {f}))
  {
    assert AllStored(w.rows, f, files[f].lines);
  }

  lemma PerformKeeps(files: Mailbox, w: World, op: ImportOp)
    requires ImportInv(files, w) && OpSound(files, w.rows, [], op)
    ensures ImportInv(files, Perform(w, op)) && KeysGrow(w.rows, Perform(w, op).rows)
    ensures op.Put? ==> HasKey(Perform(w, op).rows, Legacy(op.file, op.number, op.text))
  {
    match op
    case Put(f, number, text, m) =>
      InsertKeeps(files, w, m, Some(Legacy(f, number, text)));
      InsertGrows(w.rows, m, Some(Legacy(f, number, text)));
    case Unlink(f) => UnlinkKeeps(files, w, f);
  }

  /** With its first operation performed, the rest of a sound program is sound. */
  lemma RestSound(files: Mailbox, w: World, ops: seq<ImportOp>)
    requires ImportInv(files, w) && OpsSound(files, w.rows, ops) && ops != []
    ensures OpSound(files, w.rows, [], ops[0]) && OpsSound(files, Perform(w, ops[0]).rows, ops[1..])
  {
    assert ops[..0] == [] && OpSound(files, w.rows, ops[..0], ops[0]);
    PerformKeeps(files, w, ops[0]);
    var rest := ops[1..];
    var rows' := Perform(w, ops[0]).rows;
    forall i | 0 <= i < |rest|
      ensures OpSound(files, rows', rest[..i], rest[i])
    {
      assert OpSound(files, w.rows, ops[..i + 1], ops[i + 1]);
      assert ops[..i + 1] == [ops[0]] + rest[..i];
    }
  }

  lemma ImportStepKeeps(files: Mailbox, w: World, p: Pid)
    requires ImportInv(files, w)
    ensures ImportInv(files, Step(w, ImportStep(p)))
  {
    if p in w.importers && w.importers[p] != [] {
      RestSound(files, w, w.importers[p]);
      PerformKeeps(files, w, w.importers[p][0]);
    }
  }

  lemma StepKeeps(files: Mailbox, w: World, e: Event)
    requires ImportInv(files, w)
    ensures ImportInv(files, Step(w, e))
  {
    match e
    case Send(m, name) => InsertKeeps(files, w, m, KeyOf(name));
    case Consume(agent, limit) => ReadKeeps(files, w, agent, Room(w.rows, limit));
    case BeginImport(_, order, faults) => ProgramSound(files, w.files, w.rows, order, faults);
    case ImportStep(p) => ImportStepKeeps(files, w, p);
    case Crash(_) =>
  }

  lemma {:induction false} ImportInvHolds(files: Mailbox, es: seq<Event>)
    ensures ImportInv(files, After(files, es))
    decreases |es|
  {
    if es != [] {
      ImportInvHolds(files, es[..|es| - 1]);
      StepKeeps(files, After(files, es[..|es| - 1]), es[|es| - 1]);
    }
  }

  ghost predicate IsRowOf(rows: seq<Row>, i: int, key: Key) {
    0 <= i < |rows| && rows[i].key == Some(key)
  }

  /**
   Across crashes, reruns, concurrent imports, sends and reads: a legacy line has at most one row,
   with its own message, and exactly one once its file is gone; the lines of a file still there are
   untouched, so none is ever lost.
   */
  lemma LegacyLinesAreStoredOnce(files: Mailbox, es: seq<Event>, f: string, number: nat, text: string, m: Message)
    requires LineAt(files, f, number, text, m)
    ensures var w := After(files, es);
      && (forall i, j :: IsRowOf(w.rows, i, Legacy(f, number, text)) && IsRowOf(w.rows, j, Legacy(f, number, text)) ==>
            i == j && w.rows[i].message == m)
      && (if f in w.files then w.files[f] == files[f] else HasKey(w.rows, Legacy(f, number, text)))
  {
    ImportInvHolds(files, es);
    var w := After(files, es);
    if f !in w.files {
      assert HasKey(w.rows, LineKey(f, files[f].lines, number - 1));
    }
  }

  // ---------------------------------------------------------------- a run that is not interrupted

  function PerformAll(w: World, ops: seq<ImportOp>): World
    decreases |ops|
  {
    if ops == [] then w else PerformAll(Perform(w, ops[0]), ops[1..])
  }

  lemma {:induction false} PerformAllStores(files: Mailbox, w: World, ops: seq<ImportOp>)
    requires ImportInv(files, w) && OpsSound(files, w.rows, ops)
    ensures var w' := PerformAll(w, ops);
      && ImportInv(files, w') && KeysGrow(w.rows, w'.rows) && w'.files.Keys <= w.files.Keys
      && (forall op :: op in ops && op.Put? ==> HasKey(w'.rows, Legacy(op.file, op.number, op.text)))
      && (forall op :: op in ops && op.Unlink? ==> op.file !in w'.files)
    decreases |ops|
  {
    if ops != [] {
      RestSound(files, w, ops);
      PerformKeeps(files, w, ops[0]);
      PerformAllStores(files, Perform(w, ops[0]), ops[1..]);
    }
  }

  lemma {:induction false} ProgramHasFile(order: seq<string>, files: Mailbox, faults: Faults, f: string)
    requires f in order && f in files
    ensures forall op :: op in FileOps(f, files[f], faults) ==> op in Program(order, files, faults)
    decreases |order|
  {
    var n := |order| - 1;
    if order[n] != f {
      ProgramHasFile(order[..n], files, faults, f);
    }
  }

  /** A run without faults stores every storable line, and removes every file that has no other lines. */
  lemma UninterruptedImportIsComplete(files: Mailbox, w: World, order: seq<string>, f: string)
    requires ImportInv(files, w) && f in order && f in w.files && w.files[f].Lines?
    ensures var w' := PerformAll(w, Program(order, w.files, {}));
      AllStored(w'.rows, f, files[f].lines) && (AllGood(files[f].lines) ==> f !in w'.files)
  {
    var program := Program(order, w.files, {});
    var lines := files[f].lines;
    ProgramSound(files, w.files, w.rows, order, {});
    PerformAllStores(files, w, program);
    ProgramHasFile(order, w.files, {}, f);
    PutsExact(f, lines, {}, |lines|);
    forall n | 0 <= n < |lines| && lines[n].parsed.Good?
      ensures HasKey(PerformAll(w, program).rows, LineKey(f, lines, n))
    {
      assert Storable(f, lines, n, {});
      assert PutOf(f, lines, n) in FileOps(f, w.files[f], {});
    }
    if AllGood(lines) {
      assert Removable(f, lines, {});
      assert Unlink(f) in FileOps(f, w.files[f], {});
    }
  }

  /** A crash ends one importer where it stands: what it stored stays stored, and the files it left stay. */
  lemma CrashEffect(w: World, p: Pid)
    ensures var w' := Step(w, Crash(p));
      && w'.rows == w.rows && w'.files == w.files && p !in w'.importers
      && forall q :: q in w.importers && q != p ==> q in w'.importers && w'.importers[q] == w.importers[q]
  {
  }
}
