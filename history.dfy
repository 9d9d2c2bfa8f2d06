/** The global `history` vector: every visited URL, in visit order, with no dedup and no cap. */
module History {
  class HistoryLog {
    var entries: seq<string>

    constructor ()
      ensures entries == []
    {
      entries := [];
    }

    /** add_to_history: push_back of the URL, whether or not it is already present. */
    method Add(url: string)
      modifies this
      ensures entries == old(entries) + [url]
      ensures |entries| == |old(entries)| + 1
      ensures entries[|entries| - 1] == url
      ensures forall i :: 0 <= i < |old(entries)| ==> entries[i] == old(entries)[i]
      ensures multiset(entries)[url] == multiset(old(entries))[url] + 1
    {
      entries := entries + [url];
    }
  }
}
