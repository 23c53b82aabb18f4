/** The message store as an object: rows inserted and marked in place, and the legacy import loops. */
module MessageStores {
  import opened Prelude
  import opened MessageLedger
  import opened MailboxImport

  class MailboxDirectory {
    var files: Mailbox

    constructor (found: Mailbox)
      ensures files == found
    {
      files := found;
    }
  }

  lemma ReadsNext(rows: seq<Row>, agent: Agent, room: nat, i: nat)
    requires i < |rows|
    ensures Marked(rows[..i + 1], agent, room)
      == Marked(rows[..i], agent, room) + [Touched(rows[i], agent, |Batch(rows[..i], agent, room)|, room)]
    ensures var batch := Batch(rows[..i], agent, room);
      Batch(rows[..i + 1], agent, room)
      == if Unread(rows[i], agent) && |batch| < room then batch + [rows[i].message] else batch
  {
    assert rows[..i + 1][..i] == rows[..i];
  }

  class MessageStore {
    var rows: seq<Row>

    constructor ()
      ensures rows == []
    {
      rows := [];
    }

    /** False is the unique-constraint error of a repeated key. */
    method Send(m: Message, name: Option<string>) returns (sent: bool)
      modifies this
      ensures rows == Insert(old(rows), m, KeyOf(name))
      ensures sent <==> |rows| == |old(rows)| + 1
    {
      var key := KeyOf(name);
      sent := !(key.Some? && HasKey(rows, key.value));
      if sent {
        rows := rows + [Row(m, false, key)];
      }
    }

    /** Fetches the oldest unread messages and marks them, in one transaction. */
    method ConsumeInbox(agent: Agent, limit: Option<int>) returns (batch: seq<Message>)
      modifies this
      ensures rows == Marked(old(rows), agent, Room(old(rows), limit))
      ensures batch == Batch(old(rows), agent, Room(old(rows), limit))
      ensures batch + Inbox(rows, agent) == Inbox(old(rows), agent)
    {
      var room := Room(rows, limit);
      ghost var was := rows;
      batch := [];
      for i := 0 to |rows|
        invariant |rows| == |was| && rows[i..] == was[i..]
        invariant batch == Batch(was[..i], agent, room) && rows[..i] == Marked(was[..i], agent, room)
      {
        ReadsNext(was, agent, room, i);
        assert rows[i] == rows[i..][0] == was[i..][0] == was[i];
        ghost var front, rest := rows[..i], rows[i + 1..];
        assert rest == rows[i..][1..] == was[i..][1..] == was[i + 1..];
        if Unread(rows[i], agent) && |batch| < room {
          batch := batch + [rows[i].message];
          rows := rows[i := rows[i].(consumed := true)];
        }
        assert rows[i + 1..] == rest && rows[..i + 1] == front + [rows[i]];
      }
      assert was[..|rows|] == was && rows[..|rows|] == rows;
      BatchIsHeadOfInbox(was, agent, room);
    }

    /** `INSERT OR IGNORE` under a key. */
    method InsertOrIgnore(m: Message, key: Key) returns (inserted: bool)
      modifies this
      ensures rows == Insert(old(rows), m, Some(key))
      ensures inserted <==> |rows| == |old(rows)| + 1
    {
      inserted := !HasKey(rows, key);
      if inserted {
        rows := rows + [Row(m, false, Some(key))];
      }
    }
  }

  /** The world of one store, one directory and no other importer. */
  ghost function WorldOf(store: MessageStore, dir: MailboxDirectory): World
    reads store, dir
  {
    World(store.rows, dir.files, map[])
  }

  lemma {:induction false} PerformConcat(w: World, a: seq<ImportOp>, b: seq<ImportOp>)
    ensures PerformAll(w, a + b) == PerformAll(PerformAll(w, a), b)
    decreases |a|
  {
    if a == [] {
      assert a + b == b;
    } else {
      assert (a + b)[1..] == a[1..] + b;
      PerformConcat(Perform(w, a[0]), a[1..], b);
    }
  }

  lemma PerformOne(w: World, op: ImportOp)
    ensures PerformAll(w, [op]) == Perform(w, op)
  {
    assert [op][1..] == [];
  }

  lemma NextLine(before: World, f: string, lines: seq<Line>, faults: Faults, i: nat)
    requires i < |lines|
    ensures var now := PerformAll(before, Puts(f, lines, faults, i));
      PerformAll(before, Puts(f, lines, faults, i + 1))
      == if Storable(f, lines, i, faults) then Perform(now, PutOf(f, lines, i)) else now
  {
    var puts := Puts(f, lines, faults, i);
    if Storable(f, lines, i, faults) {
      PerformConcat(before, puts, [PutOf(f, lines, i)]);
      PerformOne(PerformAll(before, puts), PutOf(f, lines, i));
    } else {
      assert puts + [] == puts;
    }
  }

  lemma LastLine(before: World, f: string, lines: seq<Line>, faults: Faults)
    ensures var now := PerformAll(before, Puts(f, lines, faults, |lines|));
      PerformAll(before, FileOps(f, Lines(lines), faults))
      == if Removable(f, lines, faults) then Perform(now, Unlink(f)) else now
  {
    var puts := Puts(f, lines, faults, |lines|);
    if Removable(f, lines, faults) {
      PerformConcat(before, puts, [Unlink(f)]);
      PerformOne(PerformAll(before, puts), Unlink(f));
    } else {
      assert puts + [] == puts;
    }
  }

  // ---------------------------------------------------------------- what the counters count

  /** Among the first `n` lines, those that the table takes. */
  function Offered(f: string, lines: seq<Line>, faults: Faults, n: nat): nat
    requires n <= |lines|
  {
    if n == 0 then 0 else Offered(f, lines, faults, n - 1) + if Storable(f, lines, n - 1, faults) then 1 else 0
  }

  /** Those that are neither blank nor stored. */
  function Refused(f: string, lines: seq<Line>, faults: Faults, n: nat): nat
    requires n <= |lines|
  {
    if n == 0 then 0
    else
      Refused(f, lines, faults, n - 1)
      + if lines[n - 1].parsed.Blank? || Storable(f, lines, n - 1, faults) then 0 else 1
  }

  function OfferedBy(f: string, file: File, faults: Faults): nat {
    if file.Lines? then Offered(f, file.lines, faults, |file.lines|) else 0
  }

  /** An unreadable file is one error, and so is a removal that fails. */
  function ErrorsOf(f: string, file: File, faults: Faults): nat {
    match file
    case Unreadable => 1
    case Lines(lines) =>
      Refused(f, lines, faults, |lines|) + if Clean(f, lines, faults) && (f, 0) in faults then 1 else 0
  }

  function OfferedByAll(files: Mailbox, order: seq<string>, faults: Faults): nat
    requires forall f :: f in order ==> f in files
  {
    if order == [] then 0
    else
      var f := order[|order| - 1];
      OfferedByAll(files, order[..|order| - 1], faults) + OfferedBy(f, files[f], faults)
  }

  function ErrorsOfAll(files: Mailbox, order: seq<string>, faults: Faults): nat
    requires forall f :: f in order ==> f in files
  {
    if order == [] then 0
    else
      var f := order[|order| - 1];
      ErrorsOfAll(files, order[..|order| - 1], faults) + ErrorsOf(f, files[f], faults)
  }

  lemma {:induction false} CleanSoFar(f: string, lines: seq<Line>, faults: Faults, n: nat)
    requires n <= |lines|
    ensures Refused(f, lines, faults, n) == 0 <==>
      forall i :: 0 <= i < n ==> lines[i].parsed.Blank? || Storable(f, lines, i, faults)
    decreases n
  {
    if n > 0 {
      CleanSoFar(f, lines, faults, n - 1);
    }
  }

  lemma CleanRefusesNone(f: string, lines: seq<Line>, faults: Faults)
    ensures Refused(f, lines, faults, |lines|) == 0 <==> Clean(f, lines, faults)
  {
    CleanSoFar(f, lines, faults, |lines|);
  }

  // ---------------------------------------------------------------- the import

  /** One storable line: a row of its own, or a duplicate. */
  method ImportLine(store: MessageStore, f: string, lines: seq<Line>, faults: Faults, i: nat, ghost before: World)
    returns (inserted: bool)
    requires i < |lines| && PerformAll(before, Puts(f, lines, faults, i)) == before.(rows := store.rows)
    requires Storable(f, lines, i, faults)
    modifies store
    ensures PerformAll(before, Puts(f, lines, faults, i + 1)) == before.(rows := store.rows)
    ensures |store.rows| == |old(store.rows)| + if inserted then 1 else 0
  {
    NextLine(before, f, lines, faults, i);
    inserted := store.InsertOrIgnore(lines[i].parsed.message, Legacy(f, i + 1, lines[i].text));
  }

  /** The lines of one readable file; `faults` says which inserts raise. */
  method ImportLines(store: MessageStore, f: string, lines: seq<Line>, faults: Faults, ghost before: World)
    returns (imported: nat, duplicates: nat, errors: nat)
    requires before.rows == store.rows
    modifies store
    ensures PerformAll(before, Puts(f, lines, faults, |lines|)) == before.(rows := store.rows)
    ensures imported == |store.rows| - |old(store.rows)|
    ensures imported + duplicates == Offered(f, lines, faults, |lines|)
    ensures errors == Refused(f, lines, faults, |lines|)
  {
    imported, duplicates, errors := 0, 0, 0;
    for i := 0 to |lines|
      invariant PerformAll(before, Puts(f, lines, faults, i)) == before.(rows := store.rows)
      invariant imported == |store.rows| - |before.rows| && imported + duplicates == Offered(f, lines, faults, i)
      invariant errors == Refused(f, lines, faults, i)
    {
      NextLine(before, f, lines, faults, i);
      if Storable(f, lines, i, faults) {
        var inserted := ImportLine(store, f, lines, faults, i, before);
        if inserted {
          imported := imported + 1;
        } else {
          duplicates := duplicates + 1;
        }
      } else if !lines[i].parsed.Blank? {
        errors := errors + 1;
      }
    }
  }

  lemma RemovalCounts(files: Mailbox, f: string)
    requires f in files
    ensures |files - {f}| + 1 == |files|
  {
    assert files == (files - {f})[f := files[f]];
  }

  /** One mailbox file: store its lines, then remove it if none was refused. */
  method ImportFile(store: MessageStore, dir: MailboxDirectory, f: string, faults: Faults)
    returns (imported: nat, duplicates: nat, removed: bool, errors: nat)
    requires f in dir.files
    modifies store, dir
    ensures WorldOf(store, dir) == PerformAll(old(WorldOf(store, dir)), FileOps(f, old(dir.files)[f], faults))
    ensures imported == |store.rows| - |old(store.rows)|
    ensures imported + duplicates == OfferedBy(f, old(dir.files)[f], faults)
    ensures errors == ErrorsOf(f, old(dir.files)[f], faults) && (removed <==> errors == 0)
    ensures dir.files == if removed then old(dir.files) - {f} else old(dir.files)
    ensures |dir.files| == |old(dir.files)| - if removed then 1 else 0
  {
    imported, duplicates, removed, errors := 0, 0, false, 0;
    match dir.files[f]
    case Unreadable => errors := 1;
    case Lines(lines) =>
      ghost var before := WorldOf(store, dir);
      imported, duplicates, errors := ImportLines(store, f, lines, faults, before);
      LastLine(before, f, lines, faults);
      CleanRefusesNone(f, lines, faults);
      if errors == 0 {
        if (f, 0) in faults {
          errors := 1;
        } else {
          RemovalCounts(dir.files, f);
          dir.files := dir.files - {f};
          removed := true;
        }
      }
  }

  lemma NextFile(before: World, order: seq<string>, faults: Faults, i: nat)
    requires i < |order| && order[i] in before.files
    ensures PerformAll(before, Program(order[..i + 1], before.files, faults))
         == PerformAll(PerformAll(before, Program(order[..i], before.files, faults)),
                       FileOps(order[i], before.files[order[i]], faults))
  {
    assert order[..i + 1][..i] == order[..i];
    PerformConcat(before, Program(order[..i], before.files, faults), FileOps(order[i], before.files[order[i]], faults));
  }

  /** `migrate_legacy_mailboxes`: the whole run is its program, operation by operation. */
  method MigrateLegacyMailboxes(store: MessageStore, dir: MailboxDirectory, order: seq<string>, faults: Faults)
    returns (imported: nat, duplicates: nat, filesRemoved: nat, errors: nat)
    requires Unique(order) && forall k :: 0 <= k < |order| ==> order[k] in dir.files
    modifies store, dir
    ensures WorldOf(store, dir) == PerformAll(old(WorldOf(store, dir)), Program(order, old(dir.files), faults))
    ensures imported == |store.rows| - |old(store.rows)|
    ensures imported + duplicates == OfferedByAll(old(dir.files), order, faults)
    ensures filesRemoved == |old(dir.files)| - |dir.files|
    ensures errors == ErrorsOfAll(old(dir.files), order, faults) && (errors == 0 <==> filesRemoved == |order|)
  {
    imported, duplicates, filesRemoved, errors := 0, 0, 0, 0;
    ghost var before := WorldOf(store, dir);
    for i := 0 to |order|
      invariant WorldOf(store, dir) == PerformAll(before, Program(order[..i], before.files, faults))
      invariant forall k :: i <= k < |order| ==> order[k] in dir.files && dir.files[order[k]] == before.files[order[k]]
      invariant imported == |store.rows| - |before.rows|
      invariant imported + duplicates == OfferedByAll(before.files, order[..i], faults)
      invariant errors == ErrorsOfAll(before.files, order[..i], faults)
      invariant filesRemoved == |before.files| - |dir.files|
      invariant filesRemoved <= i && (errors == 0 <==> filesRemoved == i)
    {
      NextFile(before, order, faults, i);
      assert order[..i + 1][..i] == order[..i];
      var n, same, removed, bad := ImportFile(store, dir, order[i], faults);
      imported, duplicates := imported + n, duplicates + same;
      errors := errors + bad;
      if removed {
        filesRemoved := filesRemoved + 1;
      }
    }
    assert order[..|order|] == order;
  }
}
