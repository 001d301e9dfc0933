/**
 * `ProjectFlattener`: its configuration and `flatten`, which selects the
 * relevant files of the walk, orders them by priority, packs them into
 * chunk files and describes the chunks in a manifest.
 */
module Flattener {
  import opened Wrappers
  import opened Seqs
  import opened Tokens
  import opened Selector
  import opened Priority
  import opened StableSort
  import opened ChunkWriter
  import opened Packer
  import opened Annotator
  import opened Manifest

  /** The flattener's settings; `__init__` sets them once and nothing updates them. */
  datatype Config = Config(projectPath: string, outputDir: string, tokensPerFile: int, prioritizePaths: seq<string>)

  const DEFAULT_OUTPUT_DIR := "flattened_output"
  const DEFAULT_TOKENS_PER_FILE := 150000
  /** The manifest's file name inside the output directory. */
  const MANIFEST_FILE := "manifest.json"

  /** `__init__`: omitted arguments take their defaults, and a missing or
      empty priority list becomes the empty list. `absProject` is the
      project path after `os.path.abspath`. */
  function NewConfig(absProject: string, outputDir: Option<string>, tokensPerFile: Option<int>,
                     prioritizePaths: Option<seq<string>>): (c: Config)
    ensures c.projectPath == absProject
    ensures outputDir.None? ==> c.outputDir == DEFAULT_OUTPUT_DIR
    ensures outputDir.Some? ==> c.outputDir == outputDir.value
    ensures tokensPerFile.None? ==> c.tokensPerFile == DEFAULT_TOKENS_PER_FILE
    ensures tokensPerFile.Some? ==> c.tokensPerFile == tokensPerFile.value
    ensures prioritizePaths.Some? ==> c.prioritizePaths == prioritizePaths.value
    ensures prioritizePaths.None? ==> c.prioritizePaths == []
  {
    Config(absProject,
           match outputDir case None => DEFAULT_OUTPUT_DIR case Some(d) => d,
           match tokensPerFile case None => DEFAULT_TOKENS_PER_FILE case Some(t) => t,
           match prioritizePaths case None => [] case Some(p) => p)
  }

  /** The walked files `is_relevant_file` keeps, in walk order. */
  function Relevant(walked: seq<SourceFile>): seq<SourceFile> {
    if |walked| == 0 then []
    else Relevant(walked[..|walked| - 1]) + (if IsRelevantFile(walked[|walked| - 1].resolved) then [walked[|walked| - 1]] else [])
  }

  /** The walked files `is_relevant_file` rejects, in walk order. */
  function Excluded(walked: seq<SourceFile>): seq<SourceFile> {
    if |walked| == 0 then []
    else Excluded(walked[..|walked| - 1]) + (if IsRelevantFile(walked[|walked| - 1].resolved) then [] else [walked[|walked| - 1]])
  }

  lemma RelevantSnoc(walked: seq<SourceFile>, i: nat)
    requires i < |walked|
    ensures Relevant(walked[..i + 1]) == Relevant(walked[..i]) + (if IsRelevantFile(walked[i].resolved) then [walked[i]] else [])
    ensures Excluded(walked[..i + 1]) == Excluded(walked[..i]) + (if IsRelevantFile(walked[i].resolved) then [] else [walked[i]])
  {
    assert walked[..i + 1][..i] == walked[..i];
  }

  /** The scanning loop of `flatten`: splits the walked files into the
      relevant ones and the excluded ones. */
  method SelectRelevantFiles(walked: seq<SourceFile>) returns (relevant: seq<SourceFile>, excluded: seq<SourceFile>)
    ensures relevant == Relevant(walked) && excluded == Excluded(walked)
  {
    relevant, excluded := [], [];
    for i := 0 to |walked|
      invariant relevant == Relevant(walked[..i]) && excluded == Excluded(walked[..i])
    {
      RelevantSnoc(walked, i);
      if IsRelevantFile(walked[i].resolved) {
        relevant := relevant + [walked[i]];
      } else {
        excluded := excluded + [walked[i]];
      }
    }
    assert walked[..|walked|] == walked;
  }

  /** Every walked file lands in exactly one of the two lists: nothing is
      lost or duplicated. */
  lemma {:induction false} SelectionPartitions(walked: seq<SourceFile>)
    ensures multiset(Relevant(walked)) + multiset(Excluded(walked)) == multiset(walked)
  {
    if walked != [] {
      var n := |walked| - 1;
      var init, last := walked[..n], walked[n];
      SelectionPartitions(init);
      RelevantSnoc(walked, n);
      assert walked == init + [last];
      assert multiset(walked) == multiset(init) + multiset{last};
    }
  }

  /** The relevant list holds only files `is_relevant_file` accepts, the
      excluded list only files it rejects. */
  lemma {:induction false} SelectionVerdicts(walked: seq<SourceFile>)
    ensures forall f :: f in Relevant(walked) ==> IsRelevantFile(f.resolved)
    ensures forall f :: f in Excluded(walked) ==> !IsRelevantFile(f.resolved)
  {
    if walked != [] {
      var n := |walked| - 1;
      SelectionVerdicts(walked[..n]);
      RelevantSnoc(walked, n);
    }
  }

  /** The sort key `get_file_priority`, applied to the unresolved path. */
  function KeyOf(prioritize: seq<string>): SourceFile -> int {
    (f: SourceFile) => GetFilePriority(prioritize, f.path)
  }

  /** `all_files.sort(key=self.get_file_priority)`. */
  function PriorityOrder(config: Config, files: seq<SourceFile>): (r: seq<SourceFile>)
    ensures SortedBy(r, KeyOf(config.prioritizePaths))
    ensures multiset(r) == multiset(files)
  {
    SortByKeySorted(files, KeyOf(config.prioritizePaths));
    SortByKey(files, KeyOf(config.prioritizePaths))
  }

  /** The files in priority order are sorted by priority, keep the walk order
      among files of equal priority, and are the same files. */
  lemma PriorityOrderSortsStably(config: Config, files: seq<SourceFile>)
    ensures SortedBy(PriorityOrder(config, files), KeyOf(config.prioritizePaths))
    ensures forall k :: WithKey(PriorityOrder(config, files), KeyOf(config.prioritizePaths), k)
                        == WithKey(files, KeyOf(config.prioritizePaths), k)
    ensures multiset(PriorityOrder(config, files)) == multiset(files)
  {
    var key := KeyOf(config.prioritizePaths);
    SortByKeySorted(files, key);
    forall k ensures WithKey(PriorityOrder(config, files), key, k) == WithKey(files, key, k) {
      SortByKeyStable(files, key, k);
    }
  }

  /** The token cost the flattener charges for a chunk entry. */
  function CostOf(encode: string -> Option<nat>): string -> nat {
    (t: string) => EstimateTokens(encode, t)
  }

  /** The names `flatten` gives its chunks are `chunk_1.txt`, `chunk_2.txt`, … in order. */
  lemma RecordedNamesDistinct(groups: seq<seq<Entry>>, chunks: seq<(string, seq<string>)>, written: seq<(string, string)>)
    requires Recorded(groups, chunks, written)
    ensures DistinctNames(chunks)
  {
    forall i, j | 0 <= i < j < |chunks|
      ensures chunks[i].0 != chunks[j].0
    {
      if chunks[i].0 == chunks[j].0 {
        ChunkNameInjective(i + 1, j + 1);
        assert false;
      }
    }
  }

  lemma NothingReadPermuted(a: seq<SourceFile>, b: seq<SourceFile>)
    requires multiset(a) == multiset(b)
    ensures NothingRead(a) <==> NothingRead(b)
  {
    forall i | 0 <= i < |a| ensures a[i] in multiset(b) {
      assert a[i] in multiset(a);
    }
    forall i | 0 <= i < |b| ensures b[i] in multiset(a) {
      assert b[i] in multiset(b);
    }
  }

  /** The manifest of recorded chunks lists the packed files, chunk after chunk. */
  lemma ManifestListsPacked(projectPath: string, groups: seq<seq<Entry>>,
                            chunks: seq<(string, seq<string>)>, written: seq<(string, string)>)
    requires Recorded(groups, chunks, written) && DistinctNames(chunks)
    ensures AllFiles(CreateChunkManifest(projectPath, chunks)) == Paths(Concat(groups))
  {
    var m := CreateChunkManifest(projectPath, chunks);
    PathsConcat(groups);
    assert seq(|m.chunks|, k requires 0 <= k < |m.chunks| => m.chunks[k].1.files)
        == seq(|groups|, k requires 0 <= k < |groups| => Paths(groups[k]));
  }

  /** `flatten`: selects the relevant walked files, orders them by priority,
      packs the readable ones greedily into `chunk_<n>.txt` files whose
      contents' estimated token costs add up to at most `tokensPerFile` (a
      single file may exceed it alone; the chunk header and listing are not
      counted), and builds the manifest of the chunks, which
      `create_chunk_manifest` writes at `manifestPath`. `walked` is what
      `os.walk` found, with each file's read result; `encode` is the tokenizer. */
  method Flatten(config: Config, walked: seq<SourceFile>, encode: string -> Option<nat>)
    returns (relevant: seq<SourceFile>, excluded: seq<SourceFile>, chunks: seq<(string, seq<string>)>,
             written: seq<(string, string)>, manifest: Manifest, manifestPath: string, ghost groups: seq<seq<Entry>>)
    ensures relevant == Relevant(walked) && excluded == Excluded(walked)
    ensures IsGreedyPartition(groups, ReadEntries(PriorityOrder(config, relevant), Annotate), config.tokensPerFile, CostOf(encode))
    ensures Recorded(groups, chunks, written)
    ensures Consistent(manifest) && manifest.projectPath == config.projectPath && ChunksOf(manifest) == chunks
    ensures manifest.totalChunks == 0 <==> NothingRead(relevant)
    ensures AllFiles(manifest) == Paths(ReadEntries(PriorityOrder(config, relevant), Annotate))
    ensures manifestPath == JoinPath(config.outputDir, MANIFEST_FILE)
  {
    relevant, excluded := SelectRelevantFiles(walked);
    var sorted := SortByKey(relevant, KeyOf(config.prioritizePaths));
    groups, chunks, written := PackChunks(sorted, Annotate, config.tokensPerFile, CostOf(encode));
    RecordedNamesDistinct(groups, chunks, written);
    manifest := CreateChunkManifest(config.projectPath, chunks);
    manifestPath := JoinPath(config.outputDir, MANIFEST_FILE);
    NoChunksIffNothingRead(groups, sorted, Annotate, config.tokensPerFile, CostOf(encode));
    NothingReadPermuted(sorted, relevant);
    ManifestListsPacked(config.projectPath, groups, chunks, written);
  }
}
