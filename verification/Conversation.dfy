/**
 The conversation service of core/conversation/service.go with its store, core/conversation/store.go.

 The database holds the conversations, their messages and the id of the active conversation.  The
 service keeps the active conversation's record and messages in memory as well.  Every operation works
 on a transaction that commits or does nothing, as its last parameter says; the methods of Service follow
 the code and are proved to keep memory and database in step while conversations are created, switched,
 archived and deleted and replies are streamed into any of them.  Each method is one section under the
 service's mutex.  The database does not enforce foreign keys, so that deleting a conversation leaves its
 messages behind.
 */
module Conversation {
  import opened Common
  import opened Text

  type ConvId = nat
  type MsgId = nat
  type Time = int
  type Title = nat
  const NO_TITLE: Title := 0
  type Session = nat
  const NO_SESSION: Session := 0
  type Preferences = nat

  datatype Record = Record(
    id: ConvId, title: Title, session: Session, preferences: Preferences,
    created: Time, updated: Time, archived: Option<Time>)

  datatype Role = User | Assistant | System
  datatype Status = Complete | Streaming | Errored

  // A message as users see it; provider, model and reasoning are not compared.
  datatype Message = Message(role: Role, content: string, status: Status)
  datatype Row = Row(conversation: ConvId, message: Message)

  datatype Database = Database(convs: map<ConvId, Record>, rows: map<MsgId, Row>, active: Option<ConvId>)

  function Messages(rows: map<MsgId, Row>, c: ConvId): map<MsgId, Message> {
    map m | m in rows && rows[m].conversation == c :: rows[m].message
  }

  // Records carry their own id.
  ghost predicate Sound(d: Database) { forall c :: c in d.convs ==> d.convs[c].id == c }

  // Every message belongs to a conversation.
  ghost predicate Owned(d: Database) { forall m :: m in d.rows ==> d.rows[m].conversation in d.convs }

  // No conversation and no message, of a deleted conversation say, has this conversation id.
  ghost predicate New(d: Database, c: ConvId) {
    c !in d.convs && forall m :: m in d.rows ==> d.rows[m].conversation != c
  }

  // The active id names a row, so there is at least one conversation.
  ghost predicate HasActive(d: Database) { d.active.Some? && d.active.value in d.convs }

  /******* Choosing the next conversation *******/

  // The order of the queries: unarchived first, then the most recently archived or updated, then the
  // most recently created, then the greatest id.
  function Key(r: Record): Time { if r.archived.Some? then r.archived.value else r.updated }

  predicate Before(a: Record, b: Record) {
    if a.archived.Some? != b.archived.Some? then a.archived.None?
    else if Key(a) != Key(b) then Key(a) > Key(b)
    else if a.created != b.created then a.created > b.created
    else a.id > b.id
  }

  ghost predicate First(convs: map<ConvId, Record>, among: set<ConvId>, c: ConvId) {
    c in among && c in convs && forall d :: d in among && d in convs && d != c ==> Before(convs[c], convs[d])
  }

  function Others(convs: map<ConvId, Record>, c: ConvId): set<ConvId> { convs.Keys - {c} }

  function Unarchived(convs: map<ConvId, Record>, c: ConvId): set<ConvId> {
    set d | d in convs && d != c && convs[d].archived.None?
  }

  // ORDER BY ... LIMIT 1 over some of the rows.
  method SelectFirst(convs: map<ConvId, Record>, among: set<ConvId>) returns (r: Option<ConvId>)
    requires among <= convs.Keys && forall c :: c in convs ==> convs[c].id == c
    ensures r.None? <==> among == {}
    ensures r.Some? ==> First(convs, among, r.value)
  {
    r := None;
    var rest := among;
    while rest != {}
      invariant rest <= among
      invariant r.None? <==> rest == among
      invariant r.Some? ==> First(convs, among - rest, r.value)
      decreases rest
    {
      var c :| c in rest;
      rest := rest - {c};
      if r.None? || Before(convs[c], convs[r.value]) {
        r := Some(c);
      }
    }
    assert among - rest == among;
  }

  // Two conversations never tie.
  lemma FirstUnique(convs: map<ConvId, Record>, among: set<ConvId>, c: ConvId, d: ConvId)
    requires (forall i :: i in convs ==> convs[i].id == i) && First(convs, among, c) && First(convs, among, d)
    ensures c == d
  {
  }

  /******* Transactions *******/

  function NewRecord(c: ConvId, now: Time): Record { Record(c, NO_TITLE, NO_SESSION, 1, now, now, None) }

  // The conversation created in an empty database, for the messages of a legacy file if there is one.
  function FirstRecord(c: ConvId, legacy: map<MsgId, Message>, title: Title, now: Time, updated: Time): Record {
    if legacy == map[] then NewRecord(c, now) else NewRecord(c, now).(title := title, updated := updated)
  }

  // A legacy conversation has the title and time of its messages; every first conversation is unarchived.
  lemma FirstRecordMeans(c: ConvId, legacy: map<MsgId, Message>, title: Title, now: Time, updated: Time)
    ensures
      var r := FirstRecord(c, legacy, title, now, updated);
      && r.id == c && r.created == now && r.archived.None? && r.session == NO_SESSION && r.preferences == 1
      && r.title == (if legacy == map[] then NO_TITLE else title)
      && r.updated == if legacy == map[] then now else updated
  {
  }

  function WithRecord(d: Database, r: Record): Database { d.(convs := d.convs[r.id := r]) }

  function WithoutConversation(d: Database, c: ConvId): Database { d.(convs := d.convs - {c}) }

  function WithActive(d: Database, c: ConvId): Database { d.(active := Some(c)) }

  function WithMessages(d: Database, c: ConvId, added: map<MsgId, Message>): Database {
    d.(rows := d.rows + map m | m in added :: Row(c, added[m]))
  }

  // A message keeps its conversation and role.
  function WithContent(d: Database, m: MsgId, content: string, status: Status): Database {
    if m in d.rows
    then d.(rows := d.rows[m := d.rows[m].(message := d.rows[m].message.(content := content, status := status))])
    else d
  }

  lemma MessagesAfterAdd(d: Database, c: ConvId, added: map<MsgId, Message>, e: ConvId)
    requires added.Keys !! d.rows.Keys
    ensures Messages(WithMessages(d, c, added).rows, e) ==
              if e == c then Messages(d.rows, c) + added else Messages(d.rows, e)
  {
  }

  lemma MessagesAfterContent(d: Database, m: MsgId, content: string, status: Status, e: ConvId)
    ensures Messages(WithContent(d, m, content, status).rows, e) ==
              if m in Messages(d.rows, e)
              then Messages(d.rows, e)[m := Messages(d.rows, e)[m].(content := content, status := status)]
              else Messages(d.rows, e)
  {
  }

  /******* Streams *******/

  function Concat(deltas: seq<string>): string {
    if deltas == [] then "" else Concat(deltas[..|deltas| - 1]) + deltas[|deltas| - 1]
  }

  // A streaming message holds exactly the deltas received for it.
  ghost predicate StreamOk(d: Database, m: MsgId, deltas: seq<string>) {
    m in d.rows && d.rows[m].message == Message(Assistant, Concat(deltas), Streaming)
  }

  ghost predicate StreamsOk(d: Database, streams: map<MsgId, seq<string>>) {
    forall m :: m in streams ==> StreamOk(d, m, streams[m])
  }

  const EMPTY_REPLY: string := "The assistant returned an empty response."

  // The text a stream ends with.
  function FinalContent(streamed: string, result: string, error: Option<string>): string {
    var blank := Trim(streamed) == "";
    var content :=
      if error.Some? then (if blank then Trim(error.value) else streamed)
      else if Trim(result) != "" then Trim(result)
      else if blank then EMPTY_REPLY
      else streamed;
    if content == "" then EMPTY_REPLY else content
  }

  // A failed stream keeps the text already streamed, unless that is blank, and then shows the error; a
  // successful one ends with the result, if that is blank with the text streamed; white space around a
  // result or an error is cut off, and no reply is empty.
  lemma FinalContentKeeps(streamed: string, result: string, error: Option<string>)
    ensures FinalContent(streamed, result, error) != ""
    ensures error.Some? && !Blank(streamed) ==> FinalContent(streamed, result, error) == streamed
    ensures error.Some? && Blank(streamed) && !Blank(error.value) ==> Cuts(error.value, FinalContent(streamed, result, error))
    ensures error.None? && !Blank(result) ==> Cuts(result, FinalContent(streamed, result, error))
    ensures error.None? && Blank(result) && !Blank(streamed) ==> FinalContent(streamed, result, error) == streamed
    ensures Blank(streamed) && (if error.Some? then Blank(error.value) else Blank(result)) ==>
              FinalContent(streamed, result, error) == EMPTY_REPLY
  {
    TrimBlank(streamed);
    TrimBlank(result);
    TrimCuts(result, Trim(result));
    if error.Some? {
      TrimBlank(error.value);
      TrimCuts(error.value, Trim(error.value));
    }
  }

  /******* What memory shows *******/

  // Memory shows the active conversation of the database.
  ghost predicate Agrees(d: Database, active: Record, state: map<MsgId, Message>) {
    HasActive(d) && active == d.convs[d.active.value] && state == Messages(d.rows, d.active.value)
  }

  // Text that memory has and the database lacks, because the transaction of its delta failed.
  function Unsaved(lost: map<MsgId, string>, m: MsgId): string { if m in lost then lost[m] else "" }

  function Overlaid(stored: map<MsgId, Message>, lost: map<MsgId, string>): map<MsgId, Message> {
    map m | m in stored :: stored[m].(content := stored[m].content + Unsaved(lost, m))
  }

  // Only streams of the active conversation can have unsaved text.
  ghost predicate LostOk(d: Database, streams: map<MsgId, seq<string>>, lost: map<MsgId, string>)
    requires d.active.Some?
  {
    forall m :: m in lost ==> m in streams && m in d.rows && d.rows[m].conversation == d.active.value && lost[m] != ""
  }

  ghost predicate InStep(d: Database, active: Record, state: map<MsgId, Message>,
                         streams: map<MsgId, seq<string>>, lost: map<MsgId, string>)
  {
    && Sound(d) && HasActive(d) && active == d.convs[d.active.value]
    && state == Overlaid(Messages(d.rows, d.active.value), lost)
    && StreamsOk(d, streams) && LostOk(d, streams, lost)
  }

  lemma NothingOverlaid(stored: map<MsgId, Message>)
    ensures Overlaid(stored, map[]) == stored
  {
    forall m | m in stored ensures Overlaid(stored, map[])[m] == stored[m] {
      assert stored[m].content + "" == stored[m].content;
    }
  }

  // Memory and database agree if and only if no text is unsaved.
  lemma AgreesExactlyWhenSaved(d: Database, active: Record, state: map<MsgId, Message>,
                               streams: map<MsgId, seq<string>>, lost: map<MsgId, string>)
    requires InStep(d, active, state, streams, lost)
    ensures Agrees(d, active, state) <==> lost == map[]
  {
    var stored := Messages(d.rows, d.active.value);
    if lost == map[] {
      NothingOverlaid(stored);
    } else {
      var m :| m in lost;
      assert m in stored && Overlaid(stored, lost)[m].content == stored[m].content + lost[m];
      assert |Overlaid(stored, lost)[m].content| > |stored[m].content|;
    }
  }

  /******* The service *******/

  // How the end of a stream can go.
  datatype Outcome = Ok | ConversationNotFound | InvalidMessage | CommitFailed

  class Service {
    var db: Database
    var active: Record
    var state: map<MsgId, Message>
    // The deltas stored so far for each message that is being streamed, and those that memory alone has.
    ghost var streams: map<MsgId, seq<string>>
    ghost var lost: map<MsgId, string>

    ghost predicate Valid()
      reads this
    {
      InStep(db, active, state, streams, lost)
    }

    // The service over an opened database, before load.
    constructor (d: Database)
      ensures db == d && streams == map[] && lost == map[]
    {
      db, active, state, streams, lost := d, NewRecord(0, 0), map[], map[], map[];
    }

    // load: an empty database gets one conversation, and one without an active id the first in order.
    // An active id without a row makes loading fail, and so does a legacy message whose id is taken.
    method Load(newId: ConvId, legacy: map<MsgId, Message>, title: Title, now: Time, updated: Time, commits: bool) returns (ok: bool)
      requires Sound(db) && streams == map[] && lost == map[] && New(db, newId)
      modifies this`db, this`active, this`state
      ensures ok <==> commits && Loadable(old(db), legacy)
      ensures ok ==> Valid() && Loaded(old(db), db, newId, legacy, title, now, updated)
      ensures !ok ==> db == old(db)
      ensures Owned(db) <==> Owned(old(db))
    {
      var tx;
      ok, tx := Bootstrap(db, newId, legacy, title, now, updated);
      if !ok {
        return;
      }
      if tx.active.value !in tx.convs {
        return false;
      }
      var record, messages := tx.convs[tx.active.value], Messages(tx.rows, tx.active.value);
      ReloadedInStep(tx);
      ok := commits;
      if ok {
        db := tx;
        active, state := record, messages;
      }
    }

    method CreateConversation(newId: ConvId, now: Time, commits: bool) returns (ok: bool)
      requires Valid() && New(db, newId)
      modifies this`db, this`active, this`state, this`lost
      ensures Valid() && ok == commits && lost == if ok then map[] else old(lost)
      ensures db == if ok then WithActive(WithRecord(old(db), NewRecord(newId, now)), newId) else old(db)
      ensures ok ==> OneRecordChanged(old(db), db, newId) && state == map[]
      ensures ok ==> active == Record(newId, NO_TITLE, NO_SESSION, 1, now, now, None) == db.convs[newId]
      ensures Owned(db) <==> Owned(old(db))
    {
      var record := NewRecord(newId, now);
      var tx := WithActive(WithRecord(db, record), newId);
      ok := commits;
      if ok {
        NoMessages(db, newId);
        NothingOverlaid(map[]);
        db := tx;
        active, state := record, map[];
        lost := map[];
      }
    }

    method RenameConversation(id: ConvId, title: Title, now: Time, commits: bool) returns (ok: bool)
      requires Valid()
      modifies this`db, this`active, this`state, this`lost
      ensures Valid() && (ok <==> commits && id in old(db).convs && title != NO_TITLE)
      ensures db == if ok then WithRecord(old(db), old(db).convs[id].(title := title, updated := now)) else old(db)
      ensures lost == if ok && old(active).id == id then map[] else old(lost)
      ensures Owned(db) <==> Owned(old(db))
    {
      if id !in db.convs || title == NO_TITLE {
        return false;
      }
      ok := WriteRecord(db.convs[id].(title := title, updated := now), commits);
    }

    method UpdateContextPreferences(id: ConvId, preferences: Preferences, now: Time, commits: bool) returns (ok: bool)
      requires Valid()
      modifies this`db, this`active, this`state, this`lost
      ensures Valid() && (ok <==> commits && id in old(db).convs)
      ensures db == if ok then WithRecord(old(db), old(db).convs[id].(preferences := preferences, updated := now)) else old(db)
      ensures lost == if ok && old(active).id == id then map[] else old(lost)
      ensures Owned(db) <==> Owned(old(db))
    {
      if id !in db.convs {
        return false;
      }
      ok := WriteRecord(db.convs[id].(preferences := preferences, updated := now), commits);
    }

    method RestoreConversation(id: ConvId, now: Time, commits: bool) returns (ok: bool)
      requires Valid()
      modifies this`db, this`active, this`state, this`lost
      ensures Valid() && (ok <==> id in old(db).convs && (commits || old(db).convs[id].archived.None?))
      ensures
        var writes := ok && old(db).convs[id].archived.Some?;
        && db == (if writes then WithRecord(old(db), old(db).convs[id].(archived := None, updated := now)) else old(db))
        && lost == if writes && old(active).id == id then map[] else old(lost)
      ensures Owned(db) <==> Owned(old(db))
    {
      if id !in db.convs {
        return false;
      }
      if db.convs[id].archived.None? {
        return true;
      }
      ok := WriteRecord(db.convs[id].(archived := None, updated := now), commits);
    }

    // The shared ending of the three: write the record, commit, reload memory if it is the active one.
    method WriteRecord(record: Record, commits: bool) returns (ok: bool)
      requires Valid() && record.id in db.convs
      modifies this`db, this`active, this`state, this`lost
      ensures Valid() && ok == commits
      ensures db == if ok then WithRecord(old(db), record) else old(db)
      ensures lost == if ok && old(active).id == record.id then map[] else old(lost)
      ensures Owned(db) <==> Owned(old(db))
    {
      var messages := Messages(db.rows, record.id);
      NothingOverlaid(messages);
      var tx := WithRecord(db, record);
      ok := commits;
      if !ok {
        return;
      }
      db := tx;
      if active.id == record.id {
        active, state := record, messages;
        lost := map[];
      }
    }

    // Switching reloads memory from the database.
    method ActivateConversation(id: ConvId, commits: bool) returns (ok: bool)
      requires Valid()
      modifies this`db, this`active, this`state, this`lost
      ensures Valid() && (ok <==> commits && id in old(db).convs)
      ensures db == if ok then WithActive(old(db), id) else old(db)
      ensures lost == if ok then map[] else old(lost)
      ensures ok ==> Agrees(db, active, state)
      ensures ok ==> forall m :: m in streams && db.rows[m].conversation == id ==> m in state && state[m].content == Concat(streams[m])
      ensures Owned(db) <==> Owned(old(db))
    {
      if id !in db.convs {
        return false;
      }
      var record, messages := db.convs[id], Messages(db.rows, id);
      NothingOverlaid(messages);
      var tx := WithActive(db, id);
      ok := commits;
      if ok {
        db := tx;
        active, state := record, messages;
        lost := map[];
        assert forall m :: m in streams ==> StreamOk(db, m, streams[m]);
      }
    }

    // Archiving the active conversation leaves a different, unarchived one active: the first unarchived
    // one, or a new one.
    method ArchiveConversation(id: ConvId, newId: ConvId, now: Time, commits: bool) returns (ok: bool)
      requires Valid() && New(db, newId)
      modifies this`db, this`active, this`state, this`lost
      ensures Valid() && (ok <==> id in old(db).convs && (commits || old(db).convs[id].archived.Some?))
      ensures !ok ==> db == old(db)
      ensures ok ==> Archived(old(db), db, id, newId, now)
      ensures
        var leaves := ok && old(active).id == id && old(active).archived.None?;
        && lost == (if leaves then map[] else old(lost))
        && (leaves ==> active.id != id && active.archived.None? && db.convs[id].archived == Some(now))
      ensures Owned(db) <==> Owned(old(db))
    {
      if id !in db.convs {
        return false;
      }
      if db.convs[id].archived.Some? {
        return true;
      }
      var tx := WithRecord(db, db.convs[id].(archived := Some(now), updated := now));
      if active.id != id {
        ok := commits;
        if ok {
          db := tx;
        }
        return;
      }
      var next := SelectFirst(tx.convs, Unarchived(tx.convs, id));
      SameCandidates(db, tx.convs[id]);
      ok := Promote(tx, next, newId, now, commits);
      if ok {
        ArchiveLeavesUnarchivedActive(old(db), db, id, newId, now);
      }
    }

    // Makes the chosen conversation, or a new one, active and loads it.
    method Promote(d: Database, next: Option<ConvId>, newId: ConvId, now: Time, commits: bool) returns (ok: bool)
      requires Valid() && Sound(d) && New(d, newId) && (next.Some? ==> next.value in d.convs)
      requires d.rows == db.rows && d.convs.Keys == db.convs.Keys
      modifies this`db, this`active, this`state, this`lost
      ensures Valid() && ok == commits && lost == if ok then map[] else old(lost)
      ensures !ok ==> db == old(db)
      ensures ok ==> db == if next.Some? then WithActive(d, next.value)
                           else WithActive(WithRecord(d, NewRecord(newId, now)), newId)
      ensures Owned(db) <==> Owned(old(db))
    {
      var tx := d;
      var record, messages;
      if next.None? {
        record, messages := NewRecord(newId, now), map[];
        tx := WithRecord(tx, record);
        NoMessages(d, newId);
      } else {
        record, messages := tx.convs[next.value], Messages(tx.rows, next.value);
      }
      NothingOverlaid(messages);
      tx := WithActive(tx, record.id);
      ok := commits;
      if ok {
        db := tx;
        active, state := record, messages;
        lost := map[];
      }
    }

    // The messages of a deleted conversation stay in the database, where no conversation shows them.
    // So a delete keeps every message owned if and only if the conversation has none.
    method DeleteConversation(id: ConvId, newId: ConvId, now: Time, commits: bool) returns (ok: bool)
      requires Valid() && New(db, newId)
      modifies this`db, this`active, this`state, this`lost
      ensures Valid() && (ok <==> commits && id in old(db).convs)
      ensures !ok ==> db == old(db)
      ensures ok ==> Deleted(old(db), db, id, newId, now) && db.rows == old(db).rows && active.id != id
      ensures ok ==> forall m :: m in db.rows && db.rows[m].conversation == id ==> m !in state
      ensures lost == if ok && old(active).id == id then map[] else old(lost)
      ensures Owned(db) <==> Owned(old(db)) && (ok ==> Messages(old(db).rows, id) == map[])
    {
      if id !in db.convs {
        return false;
      }
      var wasActive := active.id == id;
      var tx, record, messages := db, active, state;
      if wasActive {
        tx, record, messages := Successor(db, id, newId, now);
        NothingOverlaid(messages);
      }
      tx := WithoutConversation(tx, id);
      if wasActive {
        tx := WithActive(tx, record.id);
      }
      ok := commits;
      if !ok {
        return;
      }
      db := tx;
      OwnedAfterDelete(old(db), db, id);
      if wasActive {
        active, state := record, messages;
        lost := map[];
      }
    }

    // appendMessagesForConversation, for any conversation.
    method AppendMessages(id: ConvId, added: map<MsgId, Message>, title: Title, reset: bool, when: Time, commits: bool) returns (ok: bool)
      requires Valid() && added != map[]
      modifies this`db, this`active, this`state, this`lost
      ensures Valid() && (ok <==> commits && id in old(db).convs && added.Keys !! old(db).rows.Keys)
      ensures db == if ok then WithRecord(WithMessages(old(db), id, added), Appended(old(db).convs[id], title, reset, when))
                    else old(db)
      ensures lost == if ok && old(active).id == id then map[] else old(lost)
      ensures Owned(db) <==> Owned(old(db))
    {
      if id !in db.convs || !(added.Keys !! db.rows.Keys) {
        return false;
      }
      var record, messages := db.convs[id], Messages(db.rows, id);
      var tx := WithMessages(db, id, added);
      record := Appended(record, title, reset, when);
      tx := WithRecord(tx, record);
      ok := commits;
      if !ok {
        return;
      }
      AppendedInStep(db, active, state, streams, lost, id, added, record);
      db := tx;
      if active.id == id {
        active, state := record, messages + added;
        lost := map[];
      }
    }

    // The beginning of a streamed reply: the prompt and an empty streaming message.
    method BeginStream(id: ConvId, user: MsgId, prompt: string, reply: MsgId, title: Title, when: Time, commits: bool) returns (ok: bool)
      requires Valid() && user != reply
      modifies this
      ensures Valid()
      ensures ok <==> commits && Trim(prompt) != "" && id in old(db).convs && user !in old(db).rows && reply !in old(db).rows
      ensures ok ==> reply !in old(streams) && streams == old(streams)[reply := []]
      ensures ok ==>
                var added := map[user := Message(User, Trim(prompt), Complete), reply := Message(Assistant, "", Streaming)];
                db == WithRecord(WithMessages(old(db), id, added), Appended(old(db).convs[id], title, false, when))
      ensures !ok ==> db == old(db) && streams == old(streams)
      ensures lost == if ok && old(active).id == id then map[] else old(lost)
      ensures Owned(db) <==> Owned(old(db))
    {
      if Trim(prompt) == "" {
        return false;
      }
      var added := map[user := Message(User, Trim(prompt), Complete), reply := Message(Assistant, "", Streaming)];
      assert user in added && reply in added && added.Keys == {user, reply};
      ok := AppendMessages(id, added, title, false, when, commits);
      if ok {
        StreamBegun(db, streams, reply);
        streams := streams[reply := []];
      }
    }

    // One delta, whether or not its conversation still exists.  Memory is changed before the transaction
    // commits: when that fails for the active conversation, the delta is in memory alone, until the next
    // delta of the message or the end of the stream saves it or a reload of memory drops it.
    method AppendDelta(c: ConvId, m: MsgId, delta: string, begins: bool, commits: bool) returns (ok: bool)
      requires Valid() && delta != "" && m in streams && db.rows[m].conversation == c
      modifies this`db, this`state, this`streams, this`lost
      ensures Valid() && (ok <==> begins && commits)
      ensures ok ==> streams == old(streams)[m := Stored(old(streams)[m], old(lost), m) + [delta]] && lost == old(lost) - {m}
      ensures ok ==> db == WithContent(old(db), m, old(db).rows[m].message.content + Unsaved(old(lost), m) + delta, Streaming)
      ensures !ok ==> db == old(db) && streams == old(streams)
      ensures !ok ==> lost == if begins && active.id == c then old(lost)[m := Unsaved(old(lost), m) + delta] else old(lost)
      ensures old(lost) == map[] ==> (Agrees(db, active, state) <==> ok || !begins || active.id != c)
      ensures db.rows[m].message.content == Concat(streams[m])
      ensures active.id == c ==> m in state && state[m].content == Concat(streams[m]) + Unsaved(lost, m)
      ensures Owned(db) <==> Owned(old(db))
    {
      assert StreamOk(db, m, streams[m]);
      if !begins {
        AgreesExactlyWhenSaved(db, active, state, streams, lost);
        return false;
      }
      var content := "";
      if active.id == c && m in state {
        state := state[m := state[m].(content := state[m].content + delta)];
        content := state[m].content;
      }
      if content == "" {
        if m !in db.rows {
          assert false;
          return false;
        }
        content := db.rows[m].message.content + delta;
      }
      var tx := WithContent(db, m, content, Streaming);
      ok := commits;
      if ok {
        DeltaSaved(db, active, old(state), streams, lost, m, delta);
        db := tx;
        streams := streams[m := Stored(streams[m], lost, m) + [delta]];
        lost := lost - {m};
      } else if active.id == c {
        DeltaLost(db, active, old(state), streams, lost, m, delta);
        lost := lost[m := Unsaved(lost, m) + delta];
      }
      AgreesExactlyWhenSaved(db, active, state, streams, lost);
    }

    // The end of a stream.  The text is taken from memory if the conversation is active, which also
    // brings a delta whose commit failed into the database.  The stream of a deleted conversation cannot
    // be ended: its message stays as it is.
    method FinalizeStream(c: ConvId, m: MsgId, result: string, error: Option<string>, session: Session, when: Time, commits: bool)
      returns (r: Outcome)
      requires Valid() && m in streams && db.rows[m].conversation == c
      modifies this
      ensures Valid()
      ensures r == if c !in old(db).convs then ConversationNotFound else if commits then Ok else CommitFailed
      ensures r.Ok? ==>
                var streamed := Concat(old(streams)[m]) + Unsaved(old(lost), m);
                var reply := Message(Assistant, FinalContent(streamed, result, error), if error.Some? then Errored else Complete);
                m in db.rows && db.rows[m] == Row(c, reply) && db == Finished(old(db), c, m, reply, session, when)
      ensures r.Ok? ==> streams == old(streams) - {m} && lost == if old(active).id == c then map[] else old(lost)
      ensures !r.Ok? ==> db == old(db) && active == old(active) && state == old(state) && streams == old(streams) && lost == old(lost)
      ensures Owned(db) <==> Owned(old(db))
    {
      var reply;
      assert StreamOk(db, m, streams[m]);
      if active.id == c {
        if m !in state {
          assert false;
          return InvalidMessage;
        }
        reply := state[m];
      } else {
        if m !in db.rows {
          assert false;
          return InvalidMessage;
        }
        reply := db.rows[m].message;
      }
      assert reply.content == Concat(streams[m]) + Unsaved(lost, m);
      reply := reply.(content := FinalContent(reply.content, result, error), status := if error.Some? then Errored else Complete);
      r := PersistReply(c, m, reply, session, when, commits);
    }

    // persistAssistantFinalizationLocked: updates the streamed message or inserts a new one.
    method PersistReply(c: ConvId, m: MsgId, reply: Message, session: Session, when: Time, commits: bool) returns (r: Outcome)
      requires Valid() && (m in db.rows ==> db.rows[m].conversation == c && db.rows[m].message.role == reply.role)
      modifies this
      ensures Valid()
      ensures r == if c !in old(db).convs then ConversationNotFound else if commits then Ok else CommitFailed
      ensures r.Ok? ==> db == Finished(old(db), c, m, reply, session, when)
      ensures r.Ok? ==> streams == old(streams) - {m} && lost == if old(active).id == c then map[] else old(lost)
      ensures !r.Ok? ==> db == old(db) && active == old(active) && state == old(state) && streams == old(streams) && lost == old(lost)
      ensures Owned(db) <==> Owned(old(db))
    {
      if c !in db.convs {
        return ConversationNotFound;
      }
      var record, messages := db.convs[c], Messages(db.rows, c);
      var tx := db;
      if m in messages {
        tx := WithContent(tx, m, reply.content, reply.status);
      } else {
        tx := WithMessages(tx, c, map[m := reply]);
      }
      messages := messages[m := reply];
      record := record.(session := session, updated := when);
      tx := WithRecord(tx, record);
      if !commits {
        return CommitFailed;
      }
      FinishedInStep(db, active, state, streams, lost, c, m, reply, session, when);
      db := tx;
      streams := streams - {m};
      if active.id == c {
        active, state := record, messages;
        lost := map[];
      }
      r := Ok;
    }
  }

  lemma AppendedInStep(d: Database, active: Record, state: map<MsgId, Message>, streams: map<MsgId, seq<string>>, lost: map<MsgId, string>,
                       id: ConvId, added: map<MsgId, Message>, record: Record)
    requires InStep(d, active, state, streams, lost) && id in d.convs && added.Keys !! d.rows.Keys && record.id == id
    ensures
      var d' := WithRecord(WithMessages(d, id, added), record);
      && (if active.id == id then InStep(d', record, Messages(d.rows, id) + added, streams, map[])
          else InStep(d', active, state, streams, lost))
      && (Owned(d') <==> Owned(d))
  {
    var d' := WithRecord(WithMessages(d, id, added), record);
    MessagesAfterAdd(d, id, added, active.id);
    NothingOverlaid(Messages(d.rows, id) + added);
    OwnedAfterAdd(d, d', id, added);
    KeptRows(d, d', streams, lost);
  }

  // The part of load that makes sure that there is a conversation and an active id.
  method Bootstrap(d: Database, newId: ConvId, legacy: map<MsgId, Message>, title: Title, now: Time, updated: Time)
    returns (ok: bool, tx: Database)
    requires Sound(d) && New(d, newId)
    ensures !ok ==> !Loadable(d, legacy)
    ensures ok ==> Sound(tx) && tx.active.Some? && (Loadable(d, legacy) <==> tx.active.value in tx.convs)
    ensures ok && Loadable(d, legacy) ==> Loaded(d, tx, newId, legacy, title, now, updated)
    ensures ok ==> (Owned(tx) <==> Owned(d))
  {
    tx := d;
    if |tx.convs| > 0 {
      if tx.active.None? {
        var first := SelectFirst(tx.convs, tx.convs.Keys);
        tx := WithActive(tx, first.value);
      }
      return true, tx;
    }
    if !(legacy.Keys !! tx.rows.Keys) {
      return false, tx;
    }
    tx := WithRecord(tx, FirstRecord(newId, legacy, title, now, updated));
    tx := WithMessages(tx, newId, legacy);
    tx := WithActive(tx, newId);
    assert d.convs == map[];
    FirstConversation(d, newId, legacy, title, now, updated);
    ok := true;
  }

  lemma ReloadedInStep(d: Database)
    requires Sound(d) && HasActive(d)
    ensures InStep(d, d.convs[d.active.value], Messages(d.rows, d.active.value), map[], map[])
  {
    NothingOverlaid(Messages(d.rows, d.active.value));
  }

  // The first conversation owns its legacy messages and none that were there before.
  lemma FirstConversation(d: Database, newId: ConvId, legacy: map<MsgId, Message>, title: Title, now: Time, updated: Time)
    requires d.convs == map[] && New(d, newId) && legacy.Keys !! d.rows.Keys
    ensures
      var tx := WithActive(WithMessages(WithRecord(d, FirstRecord(newId, legacy, title, now, updated)), newId, legacy), newId);
      Sound(tx) && newId in tx.convs && (Owned(tx) <==> Owned(d))
  {
    var tx := WithActive(WithMessages(WithRecord(d, FirstRecord(newId, legacy, title, now, updated)), newId, legacy), newId);
    if d.rows != map[] {
      var m :| m in d.rows;
      assert tx.rows[m] == d.rows[m];
    }
  }

  lemma StreamBegun(d: Database, streams: map<MsgId, seq<string>>, reply: MsgId)
    requires StreamsOk(d, streams) && reply in d.rows && d.rows[reply].message == Message(Assistant, "", Streaming)
    ensures StreamsOk(d, streams[reply := []])
  {
    var next := streams[reply := []];
    forall m | m in next ensures StreamOk(d, m, next[m]) {
      assert m != reply ==> StreamOk(d, m, streams[m]);
    }
  }

  // Rows that stay as they are keep their streams.
  lemma KeptRows(d: Database, d': Database, streams: map<MsgId, seq<string>>, lost: map<MsgId, string>)
    requires StreamsOk(d, streams) && d.active.Some? && d'.active == d.active && LostOk(d, streams, lost)
    requires forall m :: m in d.rows ==> m in d'.rows && d'.rows[m] == d.rows[m]
    ensures StreamsOk(d', streams) && LostOk(d', streams, lost)
  {
    forall m | m in streams ensures StreamOk(d', m, streams[m]) {
      assert StreamOk(d, m, streams[m]);
    }
  }

  // load fails on an active id without a row and on a legacy message whose id is taken.
  ghost predicate Loadable(d: Database, legacy: map<MsgId, Message>) {
    if d.convs == map[] then legacy.Keys !! d.rows.Keys else d.active.Some? ==> d.active.value in d.convs
  }

  ghost predicate Loaded(d: Database, d': Database, newId: ConvId, legacy: map<MsgId, Message>, title: Title, now: Time, updated: Time) {
    if d.convs == map[] then
      d' == WithActive(WithMessages(WithRecord(d, FirstRecord(newId, legacy, title, now, updated)), newId, legacy), newId)
    else if d.active.Some? then d' == d
    else HasActive(d') && First(d.convs, d.convs.Keys, d'.active.value) && d' == WithActive(d, d'.active.value)
  }

  // What a stream has stored once its unsaved text is saved too.
  function Stored(deltas: seq<string>, lost: map<MsgId, string>, m: MsgId): seq<string> {
    if m in lost then deltas + [lost[m]] else deltas
  }

  lemma ConcatPush(deltas: seq<string>, delta: string)
    ensures Concat(deltas + [delta]) == Concat(deltas) + delta
  {
    assert (deltas + [delta])[..|deltas|] == deltas;
  }

  lemma StoredText(deltas: seq<string>, lost: map<MsgId, string>, m: MsgId, delta: string)
    ensures Concat(Stored(deltas, lost, m) + [delta]) == Concat(deltas) + Unsaved(lost, m) + delta
  {
    ConcatPush(Stored(deltas, lost, m), delta);
    if m in lost {
      ConcatPush(deltas, lost[m]);
    }
  }

  // A delta whose transaction commits saves what memory has of its message.
  lemma DeltaSaved(d: Database, active: Record, state: map<MsgId, Message>, streams: map<MsgId, seq<string>>, lost: map<MsgId, string>,
                   m: MsgId, delta: string)
    requires InStep(d, active, state, streams, lost) && m in streams && m in d.rows
    ensures
      var content := d.rows[m].message.content + Unsaved(lost, m) + delta;
      var d' := WithContent(d, m, content, Streaming);
      var state' := if m in state then state[m := state[m].(content := state[m].content + delta)] else state;
      && InStep(d', active, state', streams[m := Stored(streams[m], lost, m) + [delta]], lost - {m})
      && d'.rows[m].message.content == Concat(Stored(streams[m], lost, m) + [delta])
      && (m in state ==> state[m].content == d.rows[m].message.content + Unsaved(lost, m))
      && (m in lost ==> m in state) && (m in state <==> d.rows[m].conversation == active.id)
      && (Owned(d') <==> Owned(d))
  {
    assert StreamOk(d, m, streams[m]);
    var content := d.rows[m].message.content + Unsaved(lost, m) + delta;
    var d' := WithContent(d, m, content, Streaming);
    var next := streams[m := Stored(streams[m], lost, m) + [delta]];
    StoredText(streams[m], lost, m, delta);
    forall k | k in next ensures StreamOk(d', k, next[k]) {
      assert k != m ==> StreamOk(d, k, streams[k]);
    }
    MessagesAfterContent(d, m, content, Streaming, d.active.value);
    SavedOverlay(Messages(d.rows, d.active.value), lost, m, delta);
    assert forall k :: k in d.rows ==> d'.rows[k].conversation == d.rows[k].conversation;
  }

  lemma SavedOverlay(stored: map<MsgId, Message>, lost: map<MsgId, string>, m: MsgId, delta: string)
    ensures m in stored ==>
              var content := stored[m].content + Unsaved(lost, m) + delta;
              Overlaid(stored[m := stored[m].(content := content)], lost - {m}) == Overlaid(stored, lost)[m := stored[m].(content := content)]
    ensures m !in stored && m !in lost ==> Overlaid(stored, lost - {m}) == Overlaid(stored, lost)
  {
    if m in stored {
      var content := stored[m].content + Unsaved(lost, m) + delta;
      assert content + "" == content;
    }
  }

  // A delta whose transaction fails stays in memory.
  lemma DeltaLost(d: Database, active: Record, state: map<MsgId, Message>, streams: map<MsgId, seq<string>>, lost: map<MsgId, string>,
                  m: MsgId, delta: string)
    requires InStep(d, active, state, streams, lost) && m in streams && m in d.rows && d.rows[m].conversation == active.id && delta != ""
    ensures m in state && InStep(d, active, state[m := state[m].(content := state[m].content + delta)], streams, lost[m := Unsaved(lost, m) + delta])
    ensures state[m].content == d.rows[m].message.content + Unsaved(lost, m)
  {
    var stored := Messages(d.rows, d.active.value);
    assert m in stored && stored[m] == d.rows[m].message;
    LostOverlay(stored, lost, m, delta);
  }

  lemma LostOverlay(stored: map<MsgId, Message>, lost: map<MsgId, string>, m: MsgId, delta: string)
    requires m in stored
    ensures
      var shown := Overlaid(stored, lost);
      Overlaid(stored, lost[m := Unsaved(lost, m) + delta]) == shown[m := shown[m].(content := shown[m].content + delta)]
  {
    assert stored[m].content + (Unsaved(lost, m) + delta) == stored[m].content + Unsaved(lost, m) + delta;
  }

  // What a finished reply leaves in the database.
  function Finished(d: Database, c: ConvId, m: MsgId, reply: Message, session: Session, when: Time): Database
    requires c in d.convs
  {
    var stored := if m in d.rows then WithContent(d, m, reply.content, reply.status) else WithMessages(d, c, map[m := reply]);
    WithRecord(stored, d.convs[c].(session := session, updated := when))
  }

  lemma FinishedMessages(d: Database, c: ConvId, m: MsgId, reply: Message, session: Session, when: Time, e: ConvId)
    requires Sound(d) && c in d.convs
    requires m in d.rows ==> d.rows[m].conversation == c && d.rows[m].message.role == reply.role
    ensures Sound(Finished(d, c, m, reply, session, when))
    ensures Messages(Finished(d, c, m, reply, session, when).rows, e) ==
              if e == c then Messages(d.rows, c)[m := reply] else Messages(d.rows, e)
    ensures Owned(Finished(d, c, m, reply, session, when)) <==> Owned(d)
  {
    var d' := Finished(d, c, m, reply, session, when);
    assert forall k :: k in d.rows ==> k in d'.rows && d'.rows[k].conversation == d.rows[k].conversation;
    if m in d.rows {
      MessagesAfterContent(d, m, reply.content, reply.status, e);
    } else {
      MessagesAfterAdd(d, c, map[m := reply], e);
      assert Messages(d.rows, c) + map[m := reply] == Messages(d.rows, c)[m := reply];
    }
  }

  // The end of a stream writes one record, its session and time, and leaves the other messages alone.
  lemma FinishedTouches(d: Database, c: ConvId, m: MsgId, reply: Message, session: Session, when: Time)
    requires Sound(d) && c in d.convs
    requires m in d.rows ==> d.rows[m].conversation == c && d.rows[m].message.role == reply.role
    ensures
      var d', r := Finished(d, c, m, reply, session, when), d.convs[c];
      && OneRecordChanged(d, d', c) && d'.active == d.active
      && d'.convs[c] == Record(c, r.title, session, r.preferences, r.created, when, r.archived)
      && d'.rows.Keys == d.rows.Keys + {m} && d'.rows[m] == Row(c, reply)
      && forall k :: k in d.rows && k != m ==> d'.rows[k] == d.rows[k]
  {
  }

  lemma FinishedStreams(d: Database, c: ConvId, m: MsgId, reply: Message, session: Session, when: Time, streams: map<MsgId, seq<string>>)
    requires c in d.convs && StreamsOk(d, streams)
    ensures StreamsOk(Finished(d, c, m, reply, session, when), streams - {m})
  {
    forall k | k in streams - {m} ensures StreamOk(Finished(d, c, m, reply, session, when), k, streams[k]) {
      assert StreamOk(d, k, streams[k]);
    }
  }

  lemma FinishedInStep(d: Database, active: Record, state: map<MsgId, Message>, streams: map<MsgId, seq<string>>, lost: map<MsgId, string>,
                       c: ConvId, m: MsgId, reply: Message, session: Session, when: Time)
    requires InStep(d, active, state, streams, lost) && c in d.convs
    requires m in d.rows ==> d.rows[m].conversation == c && d.rows[m].message.role == reply.role
    ensures
      var d' := Finished(d, c, m, reply, session, when);
      && (if active.id == c then InStep(d', d'.convs[c], Messages(d.rows, c)[m := reply], streams - {m}, map[])
          else InStep(d', active, state, streams - {m}, lost))
      && (Owned(d') <==> Owned(d))
  {
    FinishedMessages(d, c, m, reply, session, when, active.id);
    FinishedStreams(d, c, m, reply, session, when, streams);
    NothingOverlaid(Messages(d.rows, c)[m := reply]);
    FinishedLost(d, c, m, reply, session, when, streams, lost);
  }

  lemma FinishedLost(d: Database, c: ConvId, m: MsgId, reply: Message, session: Session, when: Time,
                     streams: map<MsgId, seq<string>>, lost: map<MsgId, string>)
    requires c in d.convs && d.active.Some? && LostOk(d, streams, lost) && (m in d.rows ==> d.rows[m].conversation == c)
    ensures LostOk(Finished(d, c, m, reply, session, when), streams - {m}, map[])
    ensures c != d.active.value ==> LostOk(Finished(d, c, m, reply, session, when), streams - {m}, lost)
  {
  }

  // The conversation that replaces the active one when it is deleted.
  method Successor(d: Database, id: ConvId, newId: ConvId, now: Time)
    returns (tx: Database, record: Record, messages: map<MsgId, Message>)
    requires Sound(d) && New(d, newId) && id in d.convs
    ensures Sound(tx) && tx.rows == d.rows && record.id in tx.convs && record == tx.convs[record.id] && record.id != id
    ensures messages == Messages(tx.rows, record.id)
    ensures if Others(d.convs, id) == {} then record == NewRecord(newId, now) && tx == WithRecord(d, record)
            else First(d.convs, Others(d.convs, id), record.id) && tx == d
  {
    tx := d;
    var next := SelectFirst(tx.convs, Others(tx.convs, id));
    if next.None? {
      record, messages := NewRecord(newId, now), map[];
      NoMessages(tx, newId);
      tx := WithRecord(tx, record);
    } else {
      record, messages := tx.convs[next.value], Messages(tx.rows, next.value);
    }
  }

  ghost predicate Deleted(d: Database, d': Database, id: ConvId, newId: ConvId, now: Time)
    requires id in d.convs
  {
    if d.active != Some(id) then d' == WithoutConversation(d, id)
    else if Others(d.convs, id) == {} then
      d' == WithActive(WithoutConversation(WithRecord(d, NewRecord(newId, now)), id), newId)
    else d'.active.Some? && First(d.convs, Others(d.convs, id), d'.active.value) && d' == WithActive(WithoutConversation(d, id), d'.active.value)
  }

  // Deleting a conversation, and perhaps adding a new one, keeps every message owned if and only if every
  // message was owned and the conversation had none.
  lemma OwnedAfterDelete(d: Database, d': Database, id: ConvId)
    requires id in d.convs && d'.rows == d.rows && id !in d'.convs && d.convs.Keys - {id} <= d'.convs.Keys
    requires forall c :: c in d'.convs && c !in d.convs ==> New(d, c)
    ensures Owned(d') <==> Owned(d) && Messages(d.rows, id) == map[]
  {
    if Owned(d') {
      forall m | m in d.rows ensures d.rows[m].conversation in d.convs && d.rows[m].conversation != id {
        assert d'.rows[m].conversation in d'.convs;
      }
    }
    if Messages(d.rows, id) == map[] {
      forall m | m in d.rows ensures d.rows[m].conversation != id {
        assert m !in Messages(d.rows, id);
      }
    }
  }

  lemma OwnedAfterAdd(d: Database, d': Database, id: ConvId, added: map<MsgId, Message>)
    requires id in d.convs && d'.convs.Keys == d.convs.Keys && d'.rows == WithMessages(d, id, added).rows && added.Keys !! d.rows.Keys
    ensures Owned(d') <==> Owned(d)
  {
    assert forall m :: m in d.rows ==> m in d'.rows && d'.rows[m] == d.rows[m];
  }

  function Appended(r: Record, title: Title, reset: bool, when: Time): Record {
    r.(updated := when,
       title := if r.title == NO_TITLE then title else r.title,
       session := if reset then NO_SESSION else r.session)
  }

  // No other conversation's record differs.
  ghost predicate OneRecordChanged(d: Database, d': Database, id: ConvId) {
    d'.convs.Keys == d.convs.Keys + {id} && forall c :: c in d.convs && c != id ==> d'.convs[c] == d.convs[c]
  }

  // New messages give a conversation without a title one, and a reset forgets the provider's session.
  ghost predicate Touched(r: Record, r': Record, title: Title, reset: bool, when: Time) {
    && r'.updated == when && (r.title != NO_TITLE ==> r'.title == r.title) && (r.title == NO_TITLE ==> r'.title == title)
    && (reset ==> r'.session == NO_SESSION) && (!reset ==> r'.session == r.session)
    && r'.id == r.id && r'.created == r.created && r'.archived == r.archived && r'.preferences == r.preferences
  }

  // Adding messages writes one record and leaves the other messages alone.
  lemma AppendTouches(d: Database, id: ConvId, added: map<MsgId, Message>, title: Title, reset: bool, when: Time)
    requires Sound(d) && id in d.convs && added.Keys !! d.rows.Keys
    ensures
      var d' := WithRecord(WithMessages(d, id, added), Appended(d.convs[id], title, reset, when));
      && OneRecordChanged(d, d', id) && Touched(d.convs[id], d'.convs[id], title, reset, when) && d'.active == d.active
      && d'.rows.Keys == d.rows.Keys + added.Keys
      && (forall m :: m in added ==> d'.rows[m] == Row(id, added[m])) && (forall m :: m in d.rows ==> d'.rows[m] == d.rows[m])
  {
  }

  ghost predicate Archived(d: Database, d': Database, id: ConvId, newId: ConvId, now: Time)
    requires id in d.convs
  {
    var written := WithRecord(d, d.convs[id].(archived := Some(now), updated := now));
    if d.convs[id].archived.Some? then d' == d
    else if d.active != Some(id) then d' == written
    else if Unarchived(d.convs, id) == {} then d' == WithActive(WithRecord(written, NewRecord(newId, now)), newId)
    else d'.active.Some? && First(d.convs, Unarchived(d.convs, id), d'.active.value) && d' == WithActive(written, d'.active.value)
  }

  lemma NoMessages(d: Database, c: ConvId)
    requires New(d, c)
    ensures Messages(d.rows, c) == map[]
  {
  }

  // Archiving a conversation does not change which others are candidates or their order.
  lemma SameCandidates(d: Database, r: Record)
    requires Sound(d)
    ensures Unarchived(WithRecord(d, r).convs, r.id) == Unarchived(d.convs, r.id)
    ensures forall c :: First(WithRecord(d, r).convs, Unarchived(d.convs, r.id), c) <==> First(d.convs, Unarchived(d.convs, r.id), c)
  {
    var convs := WithRecord(d, r).convs;
    assert forall c :: c in Unarchived(d.convs, r.id) ==> c in convs && convs[c] == d.convs[c];
  }

  /******* What users rely on *******/

  // Archiving the active conversation leaves a different, unarchived one active.
  lemma ArchiveLeavesUnarchivedActive(d: Database, d': Database, id: ConvId, newId: ConvId, now: Time)
    requires Sound(d) && newId !in d.convs && d.active == Some(id) && id in d.convs && d.convs[id].archived.None?
    requires Archived(d, d', id, newId, now)
    ensures HasActive(d') && d'.active != Some(id) && d'.convs[d'.active.value].archived.None?
    ensures id in d'.convs && d'.convs[id].archived == Some(now)
    ensures d'.rows == d.rows && d.convs.Keys <= d'.convs.Keys
  {
  }

  // Deleting the active conversation activates an unarchived one if there is one, the last updated, else
  // the last archived.
  lemma DeletePrefersUnarchived(d: Database, d': Database, id: ConvId, newId: ConvId, now: Time, other: ConvId)
    requires Sound(d) && newId !in d.convs && d.active == Some(id) && id in d.convs && Deleted(d, d', id, newId, now)
    requires other in d.convs && other != id
    ensures HasActive(d') && d'.active.value in d.convs && d'.active.value != id
    ensures
      var r, o := d'.convs[d'.active.value], d.convs[other];
      && (o.archived.None? ==> r.archived.None? && r.updated >= o.updated)
      && (r.archived.Some? ==> o.archived.Some? && r.archived.value >= o.archived.value)
      && (r.archived.Some? == o.archived.Some? && Key(r) == Key(o) ==> r.created >= o.created)
  {
    assert other in Others(d.convs, id);
    assert d'.active.value != other ==> Before(d.convs[d'.active.value], d.convs[other]);
  }

  // Streaming only ever extends the text.
  lemma {:induction false} EarlierTextIsPrefix(deltas: seq<string>, i: nat)
    requires i <= |deltas|
    ensures Concat(deltas[..i]) <= Concat(deltas)
    decreases |deltas| - i
  {
    if i == |deltas| {
      assert deltas[..i] == deltas;
    } else {
      var next := deltas[..i + 1];
      EarlierTextIsPrefix(deltas, i + 1);
      assert next[..i] == deltas[..i] && next[i] == deltas[i];
      assert Concat(deltas[..i]) <= Concat(next);
    }
  }
}
