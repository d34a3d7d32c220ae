/**
 * The zap logger, reduced to the record of what was logged. Every call in the
 * service logs at error level, so an entry is a message and its fields.
 */
module Zap {

  datatype Field = Field(key: string, value: string)

  datatype Entry = Entry(msg: string, fields: seq<Field>)

  class Logger {
    var entries: seq<Entry>

    constructor ()
      ensures entries == []
    {
      entries := [];
    }

    method Error(msg: string, fields: seq<Field>)
      modifies this
      ensures entries == old(entries) + [Entry(msg, fields)]
    {
      entries := entries + [Entry(msg, fields)];
    }
  }
}
