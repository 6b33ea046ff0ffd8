/** The single-record endpoints (create, read, partial update, delete) as
    operations on the `todos` table, seen as a map from identifier to record. */
module Store {
  import opened Wrappers
  import opened UuidText
  import opened Records

  // ---------------------------------------------------------------------------
  // The partial-update merge

  /** The incoming value of a field when it is non-empty, else the current one. */
  function Pick(incoming: string, current: string): (v: string)
    ensures v == incoming || (incoming == "" && v == current)
    ensures v == "" ==> incoming == "" && current == ""
  {
    if incoming != "" then incoming else current
  }

  /** The record an update writes: title, description and status come from
      the request body where it has them, identifier, owner and creation time
      are kept whatever the body says, and the update time is the clock's. */
  function Merged(existing: Todo, incoming: Todo, now: Time): (t: Todo)
    ensures t.id == existing.id && t.userId == existing.userId && t.created == existing.created
    ensures t.updated == now
    ensures t.title == Pick(incoming.title, existing.title)
    ensures t.description == Pick(incoming.description, existing.description)
    ensures t.status == Pick(incoming.status, existing.status)
  {
    existing.(
      title := Pick(incoming.title, existing.title),
      description := Pick(incoming.description, existing.description),
      status := Pick(incoming.status, existing.status),
      updated := now)
  }

  /** The update handler's field-by-field overwrite of the stored record. */
  method ApplyUpdate(existing: Todo, incoming: Todo, now: Time) returns (t: Todo)
    ensures t == Merged(existing, incoming, now)
  {
    t := existing;
    if incoming.title != "" {
      t := t.(title := incoming.title);
    }
    if incoming.description != "" {
      t := t.(description := incoming.description);
    }
    if incoming.status != "" {
      t := t.(status := incoming.status);
    }
    t := t.(updated := now);
  }

  /** Sending the same body again at the same time changes nothing more. */
  lemma MergeIdempotent(existing: Todo, incoming: Todo, now: Time)
    ensures Merged(Merged(existing, incoming, now), incoming, now) == Merged(existing, incoming, now)
  {
  }

  /** A body with no title, description or status only refreshes the update
      time. */
  lemma MergeBlankBody(existing: Todo, incoming: Todo, now: Time)
    requires incoming.title == "" && incoming.description == "" && incoming.status == ""
    ensures Merged(existing, incoming, now) == existing.(updated := now)
  {
  }

  /** Two updates in a row equal one update whose body is the second laid
      over the first: per field, the last non-empty value wins. */
  lemma MergeTwice(existing: Todo, first: Todo, second: Todo, t1: Time, t2: Time)
    ensures Merged(Merged(existing, first, t1), second, t2)
         == Merged(existing, Merged(first, second, t2), t2)
  {
  }

  // ---------------------------------------------------------------------------
  // The table

  /** The `todos` table. Every driver call may fail; a `fails` argument says
      whether the driver reports an error for the statement concerned. The
      point read, update and delete receive the identifier as the text of the
      request path, which the driver must read as an identifier before it can
      run the statement: text that is not one is a driver error. */
  class TodoTable {
    var rows: map<Uuid, Todo>

    /** Each record is stored under its own identifier and was not updated
        before it was created. */
    ghost predicate Valid()
      reads this
    {
      forall id :: id in rows ==> rows[id].id == id && rows[id].created <= rows[id].updated
    }

    constructor (initial: map<Uuid, Todo>)
      requires forall id :: id in initial ==> initial[id].id == id && initial[id].created <= initial[id].updated
      ensures Valid() && rows == initial
    {
      rows := initial;
    }

    /** POST /todos: the owner, title, description and status of the body are
        stored as sent, under the generated identifier `id`, with the two clock
        readings `created` and `updated`. */
    method Create(body: Todo, id: Uuid, created: Time, updated: Time, fails: bool) returns (r: Outcome<Todo>)
      requires Valid()
      requires id !in rows
      requires created <= updated
      modifies this
      ensures Valid()
      ensures fails ==> r == Err(InternalError) && rows == old(rows)
      ensures !fails ==>
        && r == Ok(body.(id := id, created := created, updated := updated))
        && rows == old(rows)[id := r.value]
    {
      var todo := body.(id := id, created := created, updated := updated);
      if fails {
        return Err(InternalError);
      }
      rows := rows[id := todo];
      r := Ok(todo);
    }

    /** GET /todos/{id}: the record stored under the identifier, or not found. */
    method Get(idText: string, fails: bool) returns (r: Outcome<Todo>)
      requires Valid()
      ensures Parse(idText).None? || fails ==> r == Err(InternalError)
      ensures Parse(idText).Some? && !fails ==>
        r == if Parse(idText).value in rows then Ok(rows[Parse(idText).value]) else Err(NotFound)
      ensures r.Ok? ==> Parse(idText) == Some(r.value.id)
    {
      var id := Parse(idText);
      if id.None? || fails {
        return Err(InternalError);
      }
      if id.value !in rows {
        return Err(NotFound);
      }
      r := Ok(rows[id.value]);
    }

    /** PUT /todos/{id}: read the stored record (not found leaves the table as
        it was), merge the body into it, and write the merged record back.
        `now` is the clock reading, no earlier than the creation time of the
        record it updates. */
    method Update(idText: string, body: Todo, now: Time, readFails: bool, writeFails: bool)
      returns (r: Outcome<Todo>)
      requires Valid()
      requires Parse(idText).Some? && Parse(idText).value in rows ==> rows[Parse(idText).value].created <= now
      modifies this
      ensures Valid()
      ensures Parse(idText).None? || readFails ==> r == Err(InternalError) && rows == old(rows)
      ensures Parse(idText).Some? && !readFails && Parse(idText).value !in old(rows) ==>
        r == Err(NotFound) && rows == old(rows)
      ensures Parse(idText).Some? && !readFails && Parse(idText).value in old(rows) ==>
        var merged := Merged(old(rows)[Parse(idText).value], body, now);
        if writeFails then r == Err(InternalError) && rows == old(rows)
        else r == Ok(merged) && rows == old(rows)[Parse(idText).value := merged]
    {
      var existing := Get(idText, readFails);
      if existing.Err? {
        return Err(existing.error);
      }
      var merged := ApplyUpdate(existing.value, body, now);
      if writeFails {
        return Err(InternalError);
      }
      rows := rows[merged.id := merged];
      r := Ok(merged);
    }

    /** DELETE /todos/{id}: removes the record if there is one; deleting an
        absent identifier succeeds too. */
    method Delete(idText: string, fails: bool) returns (r: Outcome<()>)
      requires Valid()
      modifies this
      ensures Valid()
      ensures Parse(idText).None? || fails ==> r == Err(InternalError) && rows == old(rows)
      ensures Parse(idText).Some? && !fails ==> r == Ok(()) && rows == old(rows) - {Parse(idText).value}
    {
      var id := Parse(idText);
      if id.None? || fails {
        return Err(InternalError);
      }
      rows := rows - {id.value};
      r := Ok(());
    }
  }

  // ---------------------------------------------------------------------------
  // Sequences of requests

  /** A record just created is found under the identifier text the response
      carries. */
  method CreateThenGet(table: TodoTable, body: Todo, id: Uuid, created: Time, updated: Time)
    returns (read: Outcome<Todo>)
    requires table.Valid() && id !in table.rows && created <= updated
    modifies table
    ensures read == Ok(body.(id := id, created := created, updated := updated))
  {
    var made := table.Create(body, id, created, updated, false);
    ParseFormat(id);
    read := table.Get(Format(made.value.id), false);
  }

  /** Once an identifier is deleted, reading it is not found. */
  method DeleteThenGet(table: TodoTable, idText: string) returns (read: Outcome<Todo>)
    requires table.Valid() && Parse(idText).Some?
    modifies table
    ensures read == Err(NotFound)
  {
    var _ := table.Delete(idText, false);
    read := table.Get(idText, false);
  }

  /** An update that leaves out some fields keeps their stored values, and a
      later read sees the merged record. */
  method UpdateThenGet(table: TodoTable, idText: string, body: Todo, now: Time)
    returns (read: Outcome<Todo>)
    requires table.Valid() && Parse(idText).Some? && Parse(idText).value in table.rows
    requires table.rows[Parse(idText).value].created <= now
    modifies table
    ensures read.Ok?
    ensures var before := old(table.rows)[Parse(idText).value];
      && read.value.id == before.id && read.value.userId == before.userId
      && read.value.created == before.created && read.value.updated == now
      && (body.title == "" ==> read.value.title == before.title)
      && (body.description == "" ==> read.value.description == before.description)
      && (body.status == "" ==> read.value.status == before.status)
  {
    var _ := table.Update(idText, body, now, false, false);
    read := table.Get(idText, false);
  }
}
