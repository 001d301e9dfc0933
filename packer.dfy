/**
 * The greedy chunk packer: the loop of `flatten` that walks the sorted files,
 * skips those whose read failed, and flushes the running chunk to
 * `chunk_<n>.txt` whenever the next file's cost would take the running total
 * over the budget and the chunk is not empty.
 */
module Packer {
  import opened Wrappers
  import opened Seqs
  import opened Annotator
  import opened ChunkWriter

  /** A file found by the directory walk: its joined path with `/` separators,
      the same path resolved (`Path.resolve`), its path relative to the project
      root, and what reading it gave (`None` when opening or decoding raised). */
  datatype SourceFile = SourceFile(path: string, resolved: string, relPath: string, read: Option<seq<Segment>>)

  /** The chunk entry a file contributes: its relative path and its content
      as `annotate` turns it into a chunk body (in `flatten`, the banner
      followed by the processed imports, `Annotator.Annotate`); nothing when
      its read failed. */
  function EntryOf(f: SourceFile, annotate: (string, seq<Segment>) -> string): seq<Entry> {
    match f.read
    case None => []
    case Some(segs) => [Entry(f.relPath, annotate(f.relPath, segs))]
  }

  /** The entries of the files that were read, in file order. */
  function ReadEntries(files: seq<SourceFile>, annotate: (string, seq<Segment>) -> string): (r: seq<Entry>)
    ensures |r| <= |files|
  {
    if |files| == 0 then [] else ReadEntries(files[..|files| - 1], annotate) + EntryOf(files[|files| - 1], annotate)
  }

  /** `[f[0] for f in chunk]`: the relative paths of a chunk, in order. */
  function Paths(entries: seq<Entry>): (r: seq<string>)
    ensures |r| == |entries|
    ensures forall e :: e in entries ==> e.relPath in r
  {
    var r := seq(|entries|, i requires 0 <= i < |entries| => entries[i].relPath);
    assert forall e :: e in entries ==> e.relPath in r by {
      forall e | e in entries ensures e.relPath in r {
        var i :| 0 <= i < |entries| && entries[i] == e;
        assert r[i] == e.relPath;
      }
    }
    r
  }

  /** The summed token cost of a list of entries. */
  function Cost(entries: seq<Entry>, cost: string -> nat): nat {
    if |entries| == 0 then 0
    else Cost(entries[..|entries| - 1], cost) + cost(entries[|entries| - 1].content)
  }

  /** Inside the chunks: none is empty, one holding two or more files stays
      within the budget, and each chunk was flushed only because the first
      file of the next one did not fit. Consecutive chunks are named as a pair
      `j, k` with `k == j + 1` so that each chunk index has a trigger of its own. */
  ghost predicate GreedyChunks(groups: seq<seq<Entry>>, budget: int, cost: string -> nat) {
    && (forall k :: 0 <= k < |groups| ==> groups[k] != [])
    && (forall k :: 0 <= k < |groups| && |groups[k]| >= 2 ==> Cost(groups[k], cost) <= budget)
    && (forall j, k :: 0 <= j < k < |groups| && k == j + 1 ==>
          Cost(groups[j], cost) + cost(groups[k][0].content) > budget)
  }

  /** What the packer promises of its chunks: together, in order, they are the
      entries, and they are greedy. */
  ghost predicate IsGreedyPartition(groups: seq<seq<Entry>>, entries: seq<Entry>, budget: int, cost: string -> nat) {
    Concat(groups) == entries && GreedyChunks(groups, budget, cost)
  }

  /** The running chunk: `count` is its cost, it is within the budget once it
      holds two files, and it was opened because its first file did not fit
      into the chunk flushed before it. */
  ghost predicate OpenChunk(groups: seq<seq<Entry>>, current: seq<Entry>, count: int, budget: int, cost: string -> nat) {
    && count == Cost(current, cost)
    && (|current| >= 2 ==> count <= budget)
    && (groups != [] ==> current != [] && Cost(groups[|groups| - 1], cost) + cost(current[0].content) > budget)
  }

  /** Each flushed chunk has its `chunks` entry and its written file, named
      by its position. */
  ghost predicate Recorded(groups: seq<seq<Entry>>, chunks: seq<(string, seq<string>)>, written: seq<(string, string)>) {
    && |chunks| == |groups| && |written| == |groups|
    && forall k :: 0 <= k < |groups| ==>
         && chunks[k] == (ChunkName(k + 1), Paths(groups[k]))
         && written[k] == (ChunkName(k + 1), ChunkText(ChunkName(k + 1), groups[k]))
  }

  lemma CostSnoc(entries: seq<Entry>, e: Entry, cost: string -> nat)
    ensures Cost(entries + [e], cost) == Cost(entries, cost) + cost(e.content)
  {
    assert (entries + [e])[..|entries|] == entries;
  }

  lemma ReadEntriesSnoc(files: seq<SourceFile>, i: nat, annotate: (string, seq<Segment>) -> string)
    requires i < |files|
    ensures ReadEntries(files[..i + 1], annotate) == ReadEntries(files[..i], annotate) + EntryOf(files[i], annotate)
  {
    assert files[..i + 1][..i] == files[..i];
  }

  /** Appending a file's entry, after a flush or not, extends the entries so far by it. */
  lemma EntriesStep(groups: seq<seq<Entry>>, current: seq<Entry>, before: seq<Entry>, entry: Entry)
    requires Concat(groups) + current == before
    ensures Concat(groups + [current]) + ([] + [entry]) == before + [entry]
    ensures Concat(groups) + (current + [entry]) == before + [entry]
  {
    ConcatSnoc(groups, current);
  }

  lemma FlushKeepsGreedy(groups: seq<seq<Entry>>, current: seq<Entry>, count: int, budget: int, cost: string -> nat)
    requires GreedyChunks(groups, budget, cost) && OpenChunk(groups, current, count, budget, cost)
    requires current != []
    ensures GreedyChunks(groups + [current], budget, cost)
  {
    var g := groups + [current];
    forall j, k | 0 <= j < k < |g| && k == j + 1
      ensures Cost(g[j], cost) + cost(g[k][0].content) > budget
    {
      if k < |groups| {
        assert g[j] == groups[j] && g[k] == groups[k];
      }
    }
  }

  lemma FlushRecorded(groups: seq<seq<Entry>>, chunks: seq<(string, seq<string>)>, written: seq<(string, string)>,
                      current: seq<Entry>, text: string)
    requires Recorded(groups, chunks, written)
    requires text == ChunkText(ChunkName(|groups| + 1), current)
    ensures Recorded(groups + [current], chunks + [(ChunkName(|groups| + 1), Paths(current))],
                     written + [(ChunkName(|groups| + 1), text)])
  {
  }

  lemma AppendKeepsOpen(groups: seq<seq<Entry>>, current: seq<Entry>, count: int, e: Entry, budget: int, cost: string -> nat)
    requires OpenChunk(groups, current, count, budget, cost)
    requires current == [] || count + cost(e.content) <= budget
    ensures OpenChunk(groups, current + [e], count + cost(e.content), budget, cost)
  {
    CostSnoc(current, e, cost);
    if current != [] {
      assert (current + [e])[0] == current[0];
    }
  }

  lemma FlushOpens(groups: seq<seq<Entry>>, current: seq<Entry>, count: int, e: Entry, budget: int, cost: string -> nat)
    requires OpenChunk(groups, current, count, budget, cost)
    requires current != [] && count + cost(e.content) > budget
    ensures OpenChunk(groups + [current], [] + [e], cost(e.content), budget, cost)
  {
    CostSnoc([], e, cost);
  }

  /** Flushes the running chunk: writes `chunk_<n>.txt` and records the
      chunk's paths under that name (both flushes of `flatten` do this). */
  method FlushChunk(groups: seq<seq<Entry>>, current: seq<Entry>, count: int, chunkNumber: nat,
                    chunks: seq<(string, seq<string>)>, written: seq<(string, string)>,
                    ghost budget: int, ghost cost: string -> nat)
    returns (groups': seq<seq<Entry>>, chunks': seq<(string, seq<string>)>, written': seq<(string, string)>)
    requires current != [] && chunkNumber == |groups| + 1
    requires GreedyChunks(groups, budget, cost) && OpenChunk(groups, current, count, budget, cost)
    requires Recorded(groups, chunks, written)
    ensures groups' == groups + [current]
    ensures GreedyChunks(groups', budget, cost) && Recorded(groups', chunks', written')
  {
    var name := ChunkName(chunkNumber);
    var text := WriteChunk(name, current);
    FlushKeepsGreedy(groups, current, count, budget, cost);
    FlushRecorded(groups, chunks, written, current, text);
    written' := written + [(name, text)];
    chunks' := chunks + [(name, Paths(current))];
    groups' := groups + [current];
  }

  /** Adds one read file's entry to the running chunk, flushing the chunk
      first when the entry's cost would take it over the budget. */
  method AddEntry(groups: seq<seq<Entry>>, current: seq<Entry>, count: nat, chunkNumber: nat,
                  chunks: seq<(string, seq<string>)>, written: seq<(string, string)>,
                  entry: Entry, budget: int, cost: string -> nat)
    returns (groups': seq<seq<Entry>>, current': seq<Entry>, count': nat, chunkNumber': nat,
             chunks': seq<(string, seq<string>)>, written': seq<(string, string)>)
    requires chunkNumber == |groups| + 1
    requires GreedyChunks(groups, budget, cost) && OpenChunk(groups, current, count, budget, cost)
    requires Recorded(groups, chunks, written)
    ensures Concat(groups') + current' == Concat(groups) + current + [entry]
    ensures GreedyChunks(groups', budget, cost) && OpenChunk(groups', current', count', budget, cost)
    ensures chunkNumber' == |groups'| + 1 && Recorded(groups', chunks', written')
  {
    var tokens := cost(entry.content);
    EntriesStep(groups, current, Concat(groups) + current, entry);
    if count + tokens > budget && current != [] {
      FlushOpens(groups, current, count, entry, budget, cost);
      groups', chunks', written' := FlushChunk(groups, current, count, chunkNumber, chunks, written, budget, cost);
      current', count', chunkNumber' := [entry], tokens, chunkNumber + 1;
      assert [] + [entry] == [entry];
    } else {
      AppendKeepsOpen(groups, current, count, entry, budget, cost);
      groups', chunks', written' := groups, chunks, written;
      current', count', chunkNumber' := current + [entry], count + tokens, chunkNumber;
    }
  }

  /** Runs the packing loop over the sorted files. `groups` are the chunks in
      flush order; `chunks` is the ordered `chunks` dictionary of `flatten`;
      `written` holds each chunk file's name and text as `write_chunk` wrote it. */
  method PackChunks(files: seq<SourceFile>, annotate: (string, seq<Segment>) -> string, budget: int, cost: string -> nat)
    returns (groups: seq<seq<Entry>>, chunks: seq<(string, seq<string>)>, written: seq<(string, string)>)
    ensures IsGreedyPartition(groups, ReadEntries(files, annotate), budget, cost)
    ensures Recorded(groups, chunks, written)
  {
    groups, chunks, written := [], [], [];
    var current: seq<Entry> := [];
    var count: nat := 0;
    var chunkNumber: nat := 1;
    for i := 0 to |files|
      invariant Concat(groups) + current == ReadEntries(files[..i], annotate)
      invariant GreedyChunks(groups, budget, cost)
      invariant OpenChunk(groups, current, count, budget, cost)
      invariant chunkNumber == |groups| + 1
      invariant Recorded(groups, chunks, written)
    {
      ReadEntriesSnoc(files, i, annotate);
      var f := files[i];
      match f.read {
        case None =>
        case Some(segs) =>
          var entry := Entry(f.relPath, annotate(f.relPath, segs));
          groups, current, count, chunkNumber, chunks, written :=
            AddEntry(groups, current, count, chunkNumber, chunks, written, entry, budget, cost);
      }
    }
    assert files[..|files|] == files;
    if current != [] {
      ConcatSnoc(groups, current);
      groups, chunks, written := FlushChunk(groups, current, count, chunkNumber, chunks, written, budget, cost);
    }
  }

  /** A longer prefix never costs less. */
  lemma {:induction false} CostPrefixMono(entries: seq<Entry>, i: nat, j: nat, cost: string -> nat)
    requires i <= j <= |entries|
    ensures Cost(entries[..i], cost) <= Cost(entries[..j], cost)
    decreases j - i
  {
    if i < j {
      CostPrefixMono(entries, i, j - 1, cost);
      assert entries[..j][..j - 1] == entries[..j - 1];
    }
  }

  /** The chunks after the first one are a greedy partition of what follows it. */
  lemma GreedyTail(groups: seq<seq<Entry>>, entries: seq<Entry>, budget: int, cost: string -> nat)
    requires groups != [] && IsGreedyPartition(groups, entries, budget, cost)
    ensures |groups[0]| <= |entries| && groups[0] == entries[..|groups[0]|]
    ensures IsGreedyPartition(groups[1..], entries[|groups[0]|..], budget, cost)
  {
    ConcatCons(groups);
    var t := groups[1..];
    forall j, k | 0 <= j < k < |t| && k == j + 1
      ensures Cost(t[j], cost) + cost(t[k][0].content) > budget
    {
      assert t[j] == groups[j + 1] && t[k] == groups[k + 1];
    }
  }

  /** A greedy partition's first chunk is no shorter than any other greedy
      partition's: a shorter one would have been closed although the next
      entry still fit. */
  lemma FirstChunkLongest(g1: seq<seq<Entry>>, g2: seq<seq<Entry>>, entries: seq<Entry>, budget: int, cost: string -> nat)
    requires g1 != [] && g2 != []
    requires IsGreedyPartition(g1, entries, budget, cost) && IsGreedyPartition(g2, entries, budget, cost)
    ensures |g2[0]| <= |g1[0]|
  {
    GreedyTail(g1, entries, budget, cost);
    GreedyTail(g2, entries, budget, cost);
    var n1, n2 := |g1[0]|, |g2[0]|;
    if n2 > n1 {
      // g1 has a second chunk, opened by entries[n1].
      ConcatCons(g1[1..]);
      assert g1[1] == g1[1..][0];
      assert entries[n1] == entries[n1..][0] == g1[1][0];
      assert Cost(g1[0], cost) + cost(g1[1][0].content) > budget;
      assert entries[..n1 + 1][..n1] == entries[..n1];
      CostPrefixMono(entries, n1 + 1, n2, cost);
      assert false;
    }
  }

  /** The chunk boundaries are determined: two greedy partitions of the same
      entries are equal, so `PackChunks` computes the only one there is. */
  lemma {:induction false} GreedyPartitionUnique(g1: seq<seq<Entry>>, g2: seq<seq<Entry>>, entries: seq<Entry>,
                                                 budget: int, cost: string -> nat)
    requires IsGreedyPartition(g1, entries, budget, cost) && IsGreedyPartition(g2, entries, budget, cost)
    ensures g1 == g2
    decreases |entries|
  {
    if g1 == [] && g2 == [] {
    } else if g1 == [] {
      ConcatCons(g2);
      assert false;
    } else if g2 == [] {
      ConcatCons(g1);
      assert false;
    } else {
      FirstChunkLongest(g1, g2, entries, budget, cost);
      FirstChunkLongest(g2, g1, entries, budget, cost);
      GreedyTail(g1, entries, budget, cost);
      GreedyTail(g2, entries, budget, cost);
      assert g1[0] != [];
      GreedyPartitionUnique(g1[1..], g2[1..], entries[|g1[0]|..], budget, cost);
      HeadTailEqual(g1, g2);
    }
  }

  /** Opening or decoding failed for every file. */
  predicate NothingRead(files: seq<SourceFile>) {
    forall i :: 0 <= i < |files| ==> files[i].read.None?
  }

  /** Nothing is packed exactly when no file could be read. */
  lemma {:induction false} ReadEntriesEmptyIff(files: seq<SourceFile>, annotate: (string, seq<Segment>) -> string)
    ensures ReadEntries(files, annotate) == [] <==> NothingRead(files)
  {
    if files != [] {
      var n := |files| - 1;
      ReadEntriesEmptyIff(files[..n], annotate);
      assert forall i :: 0 <= i < n ==> files[..n][i] == files[i];
    }
  }

  /** Every entry comes from a file that was read, carrying its relative path
      and its annotated content; and every read file has its entry. */
  lemma {:induction false} ReadEntriesFrom(files: seq<SourceFile>, annotate: (string, seq<Segment>) -> string)
    ensures forall e :: e in ReadEntries(files, annotate) ==>
              exists i :: 0 <= i < |files| && files[i].read.Some? &&
                          e == Entry(files[i].relPath, annotate(files[i].relPath, files[i].read.value))
    ensures forall i :: 0 <= i < |files| && files[i].read.Some? ==>
              Entry(files[i].relPath, annotate(files[i].relPath, files[i].read.value)) in ReadEntries(files, annotate)
  {
    if files != [] {
      var n := |files| - 1;
      ReadEntriesFrom(files[..n], annotate);
      forall e | e in ReadEntries(files, annotate)
        ensures exists i :: 0 <= i < |files| && files[i].read.Some? &&
                            e == Entry(files[i].relPath, annotate(files[i].relPath, files[i].read.value))
      {
        if e in ReadEntries(files[..n], annotate) {
          var i :| 0 <= i < n && files[..n][i].read.Some? &&
                   e == Entry(files[..n][i].relPath, annotate(files[..n][i].relPath, files[..n][i].read.value));
          assert files[..n][i] == files[i];
        } else {
          assert e in EntryOf(files[n], annotate);
        }
      }
    }
  }

  lemma PathsAppend(a: seq<Entry>, b: seq<Entry>)
    ensures Paths(a + b) == Paths(a) + Paths(b)
  {
  }

  /** When every file was read, the entries keep all files' relative paths in order. */
  lemma {:induction false} AllReadKeepsPaths(files: seq<SourceFile>, annotate: (string, seq<Segment>) -> string)
    requires forall i :: 0 <= i < |files| ==> files[i].read.Some?
    ensures Paths(ReadEntries(files, annotate)) == seq(|files|, i requires 0 <= i < |files| => files[i].relPath)
  {
    if files != [] {
      var n := |files| - 1;
      AllReadKeepsPaths(files[..n], annotate);
      PathsAppend(ReadEntries(files[..n], annotate), EntryOf(files[n], annotate));
      assert Paths(EntryOf(files[n], annotate)) == [files[n].relPath];
    }
  }

  /** Listing the chunks' paths one after another lists the packed entries' paths. */
  lemma {:induction false} PathsConcat(groups: seq<seq<Entry>>)
    ensures Paths(Concat(groups)) == Concat(seq(|groups|, k requires 0 <= k < |groups| => Paths(groups[k])))
  {
    if groups != [] {
      var n := |groups| - 1;
      PathsConcat(groups[..n]);
      var ps := seq(|groups|, k requires 0 <= k < |groups| => Paths(groups[k]));
      assert ps[..n] == seq(n, k requires 0 <= k < n => Paths(groups[..n][k]));
      assert Paths(Concat(groups[..n]) + groups[n]) == Paths(Concat(groups[..n])) + Paths(groups[n]);
    }
  }

  /** A greedy partition has no chunk exactly when there is nothing to pack. */
  lemma NoChunksIffEmpty(groups: seq<seq<Entry>>, entries: seq<Entry>, budget: int, cost: string -> nat)
    requires IsGreedyPartition(groups, entries, budget, cost)
    ensures groups == [] <==> entries == []
  {
    if groups != [] {
      ConcatCons(groups);
      assert |entries| >= |groups[0]| > 0;
    }
  }

  /** No chunk is written exactly when no file could be read. */
  lemma NoChunksIffNothingRead(groups: seq<seq<Entry>>, files: seq<SourceFile>, annotate: (string, seq<Segment>) -> string, budget: int, cost: string -> nat)
    requires IsGreedyPartition(groups, ReadEntries(files, annotate), budget, cost)
    ensures groups == [] <==> NothingRead(files)
  {
    ReadEntriesEmptyIff(files, annotate);
    NoChunksIffEmpty(groups, ReadEntries(files, annotate), budget, cost);
  }
}
