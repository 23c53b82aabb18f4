/**
 The inter-agent message table as values: sends, inbox reads and the import of legacy mailboxes, one
 transaction at a time.
 */
module MessageLedger {
  import opened Prelude

  type Agent = string

  datatype Message = Message(sender: Agent, to: Agent, content: string, kind: string)

  /** `import_key`: a legacy line is identified by file, line number and its text (through a digest). */
  datatype Key = Legacy(file: string, number: nat, text: string) | Named(name: string)

  /** Row ids increase, so the table is the sequence of its rows. */
  datatype Row = Row(message: Message, consumed: bool, key: Option<Key>)

  predicate HasKey(rows: seq<Row>, key: Key) {
    exists i :: 0 <= i < |rows| && rows[i].key == Some(key)
  }

  /** The unique constraint on keys: a conflicting insert leaves the table alone. */
  function Insert(rows: seq<Row>, m: Message, key: Option<Key>): seq<Row> {
    if key.Some? && HasKey(rows, key.value) then rows else rows + [Row(m, false, key)]
  }

  // ---------------------------------------------------------------- inbox reads

  predicate Unread(row: Row, agent: Agent) {
    row.message.to == agent && !row.consumed
  }

  /** Whether a read that has `got` so many messages takes this row. */
  predicate Takes(row: Row, agent: Agent, got: nat, room: nat) {
    Unread(row, agent) && got < room
  }

  /** The messages a read with this much room gets, in row order. */
  function Batch(rows: seq<Row>, agent: Agent, room: nat): seq<Message> {
    if rows == [] then []
    else
      var front, last := rows[..|rows| - 1], rows[|rows| - 1];
      var got := Batch(front, agent, room);
      got + if Takes(last, agent, |got|, room) then [last.message] else []
  }

  function Touched(row: Row, agent: Agent, got: nat, room: nat): Row {
    if Takes(row, agent, got, room) then row.(consumed := true) else row
  }

  /** The table after that read. */
  function Marked(rows: seq<Row>, agent: Agent, room: nat): seq<Row> {
    if rows == [] then []
    else
      var front, last := rows[..|rows| - 1], rows[|rows| - 1];
      Marked(front, agent, room) + [Touched(last, agent, |Batch(front, agent, room)|, room)]
  }

  /** No limit drains the inbox; a given one is clamped to `1..10000`. */
  function Room(rows: seq<Row>, limit: Option<int>): nat {
    match limit
    case None => |rows|
    case Some(l) => if l < 1 then 1 else if l > 10000 then 10000 else l
  }

  function Inbox(rows: seq<Row>, agent: Agent): seq<Message> {
    if rows == [] then []
    else Inbox(rows[..|rows| - 1], agent) + if Unread(rows[|rows| - 1], agent) then [rows[|rows| - 1].message] else []
  }

  lemma AppendedRow(rows: seq<Row>, row: Row, agent: Agent)
    ensures Inbox(rows + [row], agent) == Inbox(rows, agent) + if Unread(row, agent) then [row.message] else []
  {
    assert (rows + [row])[..|rows|] == rows;
  }

  /** A read takes from the front of the inbox; it stops short of its room only when nothing is left. */
  lemma {:induction false} BatchIsHeadOfInbox(rows: seq<Row>, agent: Agent, room: nat)
    ensures Batch(rows, agent, room) + Inbox(Marked(rows, agent, room), agent) == Inbox(rows, agent)
    ensures |Batch(rows, agent, room)| <= room
    ensures |Batch(rows, agent, room)| < room ==> Inbox(Marked(rows, agent, room), agent) == []
    decreases |rows|
  {
    if rows != [] {
      var front, last := rows[..|rows| - 1], rows[|rows| - 1];
      BatchIsHeadOfInbox(front, agent, room);
      AppendedRow(Marked(front, agent, room), Touched(last, agent, |Batch(front, agent, room)|, room), agent);
    }
  }

  /** A read only sets `consumed` on the reader's rows. */
  lemma {:induction false} MarkedOnlyConsumes(rows: seq<Row>, agent: Agent, room: nat)
    ensures |Marked(rows, agent, room)| == |rows|
    ensures forall i :: 0 <= i < |rows| ==>
      var row := Marked(rows, agent, room)[i];
      row == rows[i] || (row == rows[i].(consumed := true) && Unread(rows[i], agent))
    decreases |rows|
  {
    if rows != [] {
      MarkedOnlyConsumes(rows[..|rows| - 1], agent, room);
    }
  }

  lemma {:induction false} MarkedKeepsOthers(rows: seq<Row>, agent: Agent, room: nat, other: Agent)
    requires other != agent
    ensures Inbox(Marked(rows, agent, room), other) == Inbox(rows, other)
    decreases |rows|
  {
    if rows != [] {
      var front, last := rows[..|rows| - 1], rows[|rows| - 1];
      MarkedKeepsOthers(front, agent, room, other);
      AppendedRow(Marked(front, agent, room), Touched(last, agent, |Batch(front, agent, room)|, room), other);
    }
  }

  lemma {:induction false} InboxBounded(rows: seq<Row>, agent: Agent)
    ensures |Inbox(rows, agent)| <= |rows|
  {
    if rows != [] {
      InboxBounded(rows[..|rows| - 1], agent);
    }
  }

  // ---------------------------------------------------------------- legacy mailboxes

  datatype Parsed = Blank | Malformed | Unstorable | Good(message: Message)

  datatype Line = Line(text: string, parsed: Parsed)

  datatype File = Unreadable | Lines(lines: seq<Line>)

  type Mailbox = map<string, File>

  datatype ImportOp = Put(file: string, number: nat, text: string, message: Message) | Unlink(file: string)

  /**
   Lines, numbered from one, whose insert raises for a reason of its own, such as a busy database. Number 0 stands
   for the removal of the file.
   */
  type Faults = set<(string, nat)>

  predicate Storable(f: string, lines: seq<Line>, i: nat, faults: Faults)
    requires i < |lines|
  {
    lines[i].parsed.Good? && (f, i + 1) !in faults
  }

  /** The inserts for the first `n` lines, numbered from one. */
  function Puts(f: string, lines: seq<Line>, faults: Faults, n: nat): seq<ImportOp>
    requires n <= |lines|
  {
    if n == 0 then []
    else
      Puts(f, lines, faults, n - 1)
      + if Storable(f, lines, n - 1, faults) then [Put(f, n, lines[n - 1].text, lines[n - 1].parsed.message)] else []
  }

  /** A file is removed only when none of its lines was refused. */
  predicate Clean(f: string, lines: seq<Line>, faults: Faults) {
    forall i :: 0 <= i < |lines| ==> lines[i].parsed.Blank? || Storable(f, lines, i, faults)
  }

  predicate Removable(f: string, lines: seq<Line>, faults: Faults) {
    Clean(f, lines, faults) && (f, 0) !in faults
  }

  function FileOps(f: string, file: File, faults: Faults): seq<ImportOp> {
    match file
    case Unreadable => []
    case Lines(lines) => Puts(f, lines, faults, |lines|) + if Removable(f, lines, faults) then [Unlink(f)] else []
  }

  /** One import run, file by file. */
  function Program(order: seq<string>, files: Mailbox, faults: Faults): seq<ImportOp> {
    if order == [] then []
    else
      var f := order[|order| - 1];
      Program(order[..|order| - 1], files, faults) + if f in files then FileOps(f, files[f], faults) else []
  }

  // ---------------------------------------------------------------- the system

  type Pid = nat

  /** `importers` holds what each running import still has to do. */
  datatype World = World(rows: seq<Row>, files: Mailbox, importers: map<Pid, seq<ImportOp>>)

  datatype Event =
    | Send(message: Message, name: Option<string>)
    | Consume(agent: Agent, limit: Option<int>)
    | BeginImport(p: Pid, order: seq<string>, faults: Faults)
    | ImportStep(p: Pid)
    | Crash(p: Pid)

  function KeyOf(name: Option<string>): Option<Key> {
    match name case None => None case Some(n) => Some(Named(n))
  }

  function Perform(w: World, op: ImportOp): World {
    match op
    case Put(f, number, text, m) => w.(rows := Insert(w.rows, m, Some(Legacy(f, number, text))))
    case Unlink(f) => w.(files := w.files - {f})
  }

  function Step(w: World, e: Event): World {
    match e
    case Send(m, name) => w.(rows := Insert(w.rows, m, KeyOf(name)))
    case Consume(agent, limit) => w.(rows := Marked(w.rows, agent, Room(w.rows, limit)))
    case BeginImport(p, order, faults) => w.(importers := w.importers[p := Program(order, w.files, faults)])
    case ImportStep(p) =>
      if p !in w.importers || w.importers[p] == [] then w
      else
        var w' := Perform(w, w.importers[p][0]);
        w'.(importers := w.importers[p := w.importers[p][1..]])
    case Crash(p) => w.(importers := w.importers - {p})
  }

  function Start(files: Mailbox): World {
    World([], files, map[])
  }

  function After(files: Mailbox, es: seq<Event>): World {
    if es == [] then Start(files) else Step(After(files, es[..|es| - 1]), es[|es| - 1])
  }

  function Imported(rows: seq<Row>, op: ImportOp): Option<Message> {
    if op.Put? && !HasKey(rows, Legacy(op.file, op.number, op.text)) then Some(op.message) else None
  }

  /** The message a step adds to the table, if any. */
  function Accepted(w: World, e: Event): Option<Message> {
    match e
    case Send(m, name) => if name.Some? && HasKey(w.rows, Named(name.value)) then None else Some(m)
    case ImportStep(p) =>
      if p in w.importers && w.importers[p] != [] then Imported(w.rows, w.importers[p][0]) else None
    case _ => None
  }

  /** What a step hands to an agent. */
  function Taken(w: World, e: Event, agent: Agent): seq<Message> {
    if e.Consume? && e.agent == agent then Batch(w.rows, agent, Room(w.rows, e.limit)) else []
  }

  function For(m: Option<Message>, agent: Agent): seq<Message> {
    if m.Some? && m.value.to == agent then [m.value] else []
  }

  /** All messages accepted for an agent along a run, in order. */
  function Sent(files: Mailbox, es: seq<Event>, agent: Agent): seq<Message> {
    if es == [] then []
    else
      var before := es[..|es| - 1];
      Sent(files, before, agent) + For(Accepted(After(files, before), es[|es| - 1]), agent)
  }

  /** Everything the reads of one agent have returned, in order. */
  function Delivered(files: Mailbox, es: seq<Event>, agent: Agent): seq<Message> {
    if es == [] then []
    else
      var before := es[..|es| - 1];
      Delivered(files, before, agent) + Taken(After(files, before), es[|es| - 1], agent)
  }

  // ---------------------------------------------------------------- first in, first out

  lemma InsertQueues(rows: seq<Row>, m: Message, key: Option<Key>, agent: Agent)
    ensures var accepted := if key.Some? && HasKey(rows, key.value) then None else Some(m);
      Inbox(Insert(rows, m, key), agent) == Inbox(rows, agent) + For(accepted, agent)
  {
    AppendedRow(rows, Row(m, false, key), agent);
  }

  lemma ReadQueues(rows: seq<Row>, reader: Agent, room: nat, agent: Agent)
    ensures (if reader == agent then Batch(rows, agent, room) else []) + Inbox(Marked(rows, reader, room), agent)
         == Inbox(rows, agent)
  {
    if reader == agent {
      BatchIsHeadOfInbox(rows, reader, room);
    } else {
      MarkedKeepsOthers(rows, reader, room, agent);
    }
  }

  lemma ImportQueues(w: World, p: Pid, agent: Agent)
    ensures Inbox(Step(w, ImportStep(p)).rows, agent) == Inbox(w.rows, agent) + For(Accepted(w, ImportStep(p)), agent)
  {
    if p in w.importers && w.importers[p] != [] && w.importers[p][0].Put? {
      var op := w.importers[p][0];
      InsertQueues(w.rows, op.message, Some(Legacy(op.file, op.number, op.text)), agent);
    }
  }

  /** One step of one queue: what it takes from the front and what it adds at the back. */
  lemma StepQueues(w: World, e: Event, agent: Agent)
    ensures Taken(w, e, agent) + Inbox(Step(w, e).rows, agent) == Inbox(w.rows, agent) + For(Accepted(w, e), agent)
  {
    match e
    case Send(m, name) => InsertQueues(w.rows, m, KeyOf(name), agent);
    case Consume(reader, limit) => ReadQueues(w.rows, reader, Room(w.rows, limit), agent);
    case ImportStep(p) => ImportQueues(w, p, agent);
    case BeginImport(_, _, _) =>
    case Crash(_) =>
  }

  lemma Regroup<T>(given: seq<T>, queue: seq<T>, taken: seq<T>, queue': seq<T>, added: seq<T>)
    requires taken + queue' == queue + added
    ensures (given + taken) + queue' == (given + queue) + added
  {
    assert (given + taken) + queue' == given + (taken + queue');
    assert (given + queue) + added == given + (queue + added);
  }

  /**
   For any interleaving of sends, imports and reads, what an agent has been given, followed by what
   it has not read yet, is everything accepted for it, in order and without repetition.
   */
  lemma {:induction false} InboxIsFifo(files: Mailbox, es: seq<Event>, agent: Agent)
    ensures Delivered(files, es, agent) + Inbox(After(files, es).rows, agent) == Sent(files, es, agent)
    decreases |es|
  {
    if es != [] {
      var before, e := es[..|es| - 1], es[|es| - 1];
      InboxIsFifo(files, before, agent);
      StepQueues(After(files, before), e, agent);
      var w := After(files, before);
      Regroup(Delivered(files, before, agent), Inbox(w.rows, agent),
              Taken(w, e, agent), Inbox(After(files, es).rows, agent), For(Accepted(w, e), agent));
    }
  }

  /** A read without limit empties the inbox; another takes its limit, brought to `1..10000`, if there are that many. */
  lemma ReadTakesItsShare(rows: seq<Row>, agent: Agent, limit: Option<int>)
    ensures var unread, got := |Inbox(rows, agent)|, |Batch(rows, agent, Room(rows, limit))|;
      match limit
      case None => got == unread
      case Some(l) =>
        var most := if l < 1 then 1 else if l > 10000 then 10000 else l;
        got == if most < unread then most else unread
    ensures limit.None? ==> Batch(rows, agent, Room(rows, limit)) == Inbox(rows, agent)
  {
    BatchIsHeadOfInbox(rows, agent, Room(rows, limit));
    InboxBounded(rows, agent);
  }

  /** A send adds one unread row at the end, under its key; a name that some row already has adds nothing. */
  lemma SendEffect(w: World, m: Message, name: Option<string>)
    ensures var w' := Step(w, Send(m, name));
      && w'.files == w.files && w'.importers == w.importers
      && w'.rows ==
         if name.Some? && exists i :: 0 <= i < |w.rows| && w.rows[i].key == Some(Named(name.value)) then w.rows
         else w.rows + [Row(m, false, if name.Some? then Some(Named(name.value)) else None)]
  {
  }
}
