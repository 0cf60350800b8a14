/**
  LogEntryProperties: one communication log entry. Its id, service and
  timestamp are fixed when it is built; the eight descriptive properties each
  have a setter that writes that property alone.
*/
module LogEntries {
  import opened JsValues

  /** The contents of an entry at one moment, as the store keeps it. */
  datatype EntryRecord = EntryRecord(
    id: Value, service: Value, timestamp: Value,
    entryType: Value, status: Value, contactId: Value, tel: Value,
    objectId: Value, title: Value, description: Value, extra: Value)

  /** A record with only its identity set, as the constructor leaves it. */
  function Shell(id: Value, service: Value, timestamp: Value): (r: EntryRecord)
    ensures r.id == id && r.service == service && r.timestamp == timestamp
    ensures r.entryType == r.status == r.contactId == r.tel == Undefined
    ensures r.objectId == r.title == r.description == r.extra == Undefined
  {
    EntryRecord(id, service, timestamp, Undefined, Undefined, Undefined, Undefined,
                Undefined, Undefined, Undefined, Undefined)
  }

  /**
    The three identity properties are constants: only their getters exist.
    The JavaScript property `type` is `entryType` here (`type` is a Dafny keyword).
  */
  class LogEntryProperties {
    const id: Value
    const service: Value
    const timestamp: Value
    var entryType: Value
    var status: Value
    var contactId: Value
    var tel: Value
    var objectId: Value
    var title: Value
    var description: Value
    var extra: Value

    function Snapshot(): EntryRecord
      reads this
    {
      EntryRecord(id, service, timestamp, entryType, status, contactId, tel,
                  objectId, title, description, extra)
    }

    /** `new LogEntryProperties(id, service, timestamp)`: the identity is set, everything else unset. */
    constructor (id: Value, service: Value, timestamp: Value)
      ensures Snapshot() == Shell(id, service, timestamp)
    {
      this.id := id;
      this.service := service;
      this.timestamp := timestamp;
      entryType, status, contactId, tel := Undefined, Undefined, Undefined, Undefined;
      objectId, title, description, extra := Undefined, Undefined, Undefined, Undefined;
    }

    method SetType(t: Value)
      modifies this`entryType
      ensures Snapshot() == old(Snapshot()).(entryType := t)
    {
      entryType := t;
    }

    method SetStatus(s: Value)
      modifies this`status
      ensures Snapshot() == old(Snapshot()).(status := s)
    {
      status := s;
    }

    method SetContactId(c: Value)
      modifies this`contactId
      ensures Snapshot() == old(Snapshot()).(contactId := c)
    {
      contactId := c;
    }

    method SetTel(t: Value)
      modifies this`tel
      ensures Snapshot() == old(Snapshot()).(tel := t)
    {
      tel := t;
    }

    method SetObjectId(o: Value)
      modifies this`objectId
      ensures Snapshot() == old(Snapshot()).(objectId := o)
    {
      objectId := o;
    }

    method SetTitle(t: Value)
      modifies this`title
      ensures Snapshot() == old(Snapshot()).(title := t)
    {
      title := t;
    }

    method SetDescription(d: Value)
      modifies this`description
      ensures Snapshot() == old(Snapshot()).(description := d)
    {
      description := d;
    }

    method SetExtra(e: Value)
      modifies this`extra
      ensures Snapshot() == old(Snapshot()).(extra := e)
    {
      extra := e;
    }
  }
}
