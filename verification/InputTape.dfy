/** The ordered deterministic-input tape of the JVM agent. */
module InputTape {

  datatype TapeEntry = TapeEntry(kind: string, encoded: string)

  datatype Taking = Taken(encoded: string) | WrongKind | Ended

  /** What `next` finds at the tape cursor in replay mode. */
  function Consult(tape: seq<TapeEntry>, cursor: nat, kind: string): Taking {
    if cursor >= |tape| then Ended
    else if tape[cursor].kind != kind then WrongKind
    else Taken(tape[cursor].encoded)
  }

  class Tape {
    var entries: seq<TapeEntry>
    var cursor: nat

    constructor (recorded: seq<TapeEntry>)
      ensures entries == recorded && cursor == 0
    {
      entries, cursor := recorded, 0;
    }

    /** The replaying half of `next` and `nextBytes`: the cursor moves before the kind is compared,
        so an entry of another kind is consumed by the call that rejects it. */
    method Take(kind: string) returns (taking: Taking)
      modifies this`cursor
      ensures taking.Ended? <==> old(cursor) >= |entries|
      ensures taking.Taken? ==> entries[old(cursor)] == TapeEntry(kind, taking.encoded)
      ensures taking == Consult(entries, old(cursor), kind)
      ensures cursor == old(cursor) + (if taking.Ended? then 0 else 1)
    {
      if cursor >= |entries| {
        return Ended;
      }
      var entry := entries[cursor];
      cursor := cursor + 1;
      if entry.kind != kind {
        return WrongKind;
      }
      return Taken(entry.encoded);
    }

    /** The recording half: one line is added at the end of the tape file. */
    method Append(kind: string, encoded: string)
      modifies this`entries
      ensures entries == old(entries) + [TapeEntry(kind, encoded)]
    {
      entries := entries + [TapeEntry(kind, encoded)];
    }
  }
}
