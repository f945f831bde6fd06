/** The in-memory cache of note summaries, keyed by index key. */
module NoteCaches {
  import opened Sequences
  import opened Domain

  /** Every summary sits under the key of its own path. */
  ghost predicate Keyed(notes: map<string, NoteSummary>, indexKey: string -> string) {
    forall k :: k in notes ==> indexKey(notes[k].ref.path) == k
  }

  class NoteCache {
    var notes: map<string, NoteSummary>

    constructor ()
      ensures notes == map[]
    {
      notes := map[];
    }

    method Get(key: string) returns (s: Option<NoteSummary>)
      ensures s == if key in notes then Some(notes[key]) else None
    {
      if key in notes { s := Some(notes[key]); } else { s := None; }
    }

    method Set(key: string, s: NoteSummary)
      modifies this
      ensures notes == old(notes)[key := s]
    {
      notes := notes[key := s];
    }

    method Delete(key: string)
      modifies this
      ensures notes == old(notes) - {key}
    {
      notes := notes - {key};
    }

    /** Renames a key and replaces its summary; the two keys may be equal. */
    method Move(oldKey: string, newKey: string, s: NoteSummary)
      modifies this
      ensures notes == (old(notes) - {oldKey})[newKey := s]
    {
      notes := notes - {oldKey};
      notes := notes[newKey := s];
    }

    /** All summaries, each once, in an order that is not specified. */
    method All() returns (r: seq<NoteSummary>, ghost keys: seq<string>)
      ensures NoDuplicates(keys) && |keys| == |r|
      ensures forall k :: k in keys <==> k in notes
      ensures forall i :: 0 <= i < |r| ==> r[i] == notes[keys[i]]
    {
      r, keys := [], [];
      var rest := notes.Keys;
      while rest != {}
        invariant rest <= notes.Keys
        invariant NoDuplicates(keys) && |keys| == |r|
        invariant forall k :: k in keys <==> k in notes && k !in rest
        invariant forall i :: 0 <= i < |r| ==> keys[i] in notes && r[i] == notes[keys[i]]
        decreases rest
      {
        var k :| k in rest;
        rest := rest - {k};
        r := r + [notes[k]];
        keys := keys + [k];
      }
    }
  }
}
