/**
 * The chunk manifest `create_chunk_manifest` writes to `manifest.json`: the
 * project path, the number of chunks and, per chunk file in insertion order,
 * its file list and the length of that list.
 */
module Manifest {
  import opened Seqs
  import opened Strings

  /** The per-chunk record `{"files": [...], "file_count": n}`. */
  datatype ChunkRecord = ChunkRecord(files: seq<string>, fileCount: nat)

  /** The manifest object; `chunks` keeps the dictionary's insertion order. */
  datatype Manifest = Manifest(projectPath: string, totalChunks: nat, chunks: seq<(string, ChunkRecord)>)

  /** A Python dictionary is modelled as an association list; its keys are distinct. */
  ghost predicate DistinctNames<V>(entries: seq<(string, V)>) {
    forall i, j :: 0 <= i < j < |entries| ==> entries[i].0 != entries[j].0
  }

  /** What every manifest says of itself: the chunk count is the number of
      chunk records and each record's count is the length of its list. */
  predicate Consistent(m: Manifest) {
    && m.totalChunks == |m.chunks|
    && forall k :: 0 <= k < |m.chunks| ==> m.chunks[k].1.fileCount == |m.chunks[k].1.files|
  }

  /** Reads the `chunks` dictionary back from a manifest. */
  function ChunksOf(m: Manifest): (r: seq<(string, seq<string>)>)
    ensures |r| == |m.chunks|
  {
    seq(|m.chunks|, k requires 0 <= k < |m.chunks| => (m.chunks[k].0, m.chunks[k].1.files))
  }

  /** Builds the manifest of the `chunks` dictionary. */
  function CreateChunkManifest(projectPath: string, chunks: seq<(string, seq<string>)>): (m: Manifest)
    requires DistinctNames(chunks)
    ensures Consistent(m) && m.projectPath == projectPath
    ensures ChunksOf(m) == chunks
    ensures DistinctNames(m.chunks)
  {
    Manifest(projectPath, |chunks|,
             seq(|chunks|, k requires 0 <= k < |chunks| => (chunks[k].0, ChunkRecord(chunks[k].1, |chunks[k].1|))))
  }

  /** Every file listed by the manifest, chunk after chunk. */
  function AllFiles(m: Manifest): seq<string> {
    Concat(seq(|m.chunks|, k requires 0 <= k < |m.chunks| => m.chunks[k].1.files))
  }

  /** The sum of the manifest's `file_count` fields. */
  function TotalFileCount(recs: seq<(string, ChunkRecord)>): nat {
    if |recs| == 0 then 0 else TotalFileCount(recs[..|recs| - 1]) + recs[|recs| - 1].1.fileCount
  }

  /** In a consistent manifest the `file_count` fields add up to the number of files listed. */
  lemma {:induction false} FileCountsAddUp(m: Manifest)
    requires Consistent(m)
    ensures TotalFileCount(m.chunks) == |AllFiles(m)|
  {
    var lists := seq(|m.chunks|, k requires 0 <= k < |m.chunks| => m.chunks[k].1.files);
    ConcatLength(lists);
    SumsAgree(m.chunks, lists);
  }

  lemma {:induction false} SumsAgree(recs: seq<(string, ChunkRecord)>, lists: seq<seq<string>>)
    requires |lists| == |recs|
    requires forall k :: 0 <= k < |recs| ==> recs[k].1.fileCount == |lists[k]|
    ensures TotalFileCount(recs) == TotalLength(lists)
  {
    if recs != [] {
      var n := |recs| - 1;
      SumsAgree(recs[..n], lists[..n]);
    }
  }

  /** `os.path.join(directory, name)` for a single name: an absolute name
      discards the directory; otherwise the directory, one `/` unless it is
      empty or already ends with one, and the name. */
  function JoinPath(directory: string, name: string): (r: string)
    ensures StartsWith(name, "/") ==> r == name
    ensures !StartsWith(name, "/") ==>
              && |directory| + |name| <= |r| <= |directory| + 1 + |name|
              && r[..|directory|] == directory && r[|r| - |name|..] == name
              && (directory != [] ==> r[|r| - |name| - 1] == '/')
              && (|r| == |directory| + |name| <==> (directory == [] || directory[|directory| - 1] == '/'))
  {
    if StartsWith(name, "/") then name
    else if directory == [] || directory[|directory| - 1] == '/' then directory + name
    else directory + "/" + name
  }
}
