# ts_flattener in Dafny

A verified model of `ts_flattener.py`, the React/TypeScript project
flattener. It walks a project directory and keeps the source files that
matter: `.ts`, `.tsx`, `.js`, `.jsx`, `.css`, `.scss` and `.json`, outside
`node_modules`, `build`, `dist`, `.next`, `.git` and `.cache`, and not
`.test.ts`/`.test.tsx`. It orders them by a priority key and prefixes each
with a `# File:` banner. In each file it turns relative imports into comments.
It then packs the files greedily into `chunk_<n>.txt` chunks whose files'
estimated token costs add up to at most `tokens_per_file`. The chunk header,
the file listing and the divider are not counted, so a chunk file's own text
is not bounded. A single file that is over the budget gets a chunk of its own. Last, it writes a `manifest.json` that lists every chunk's files.

Modules, one per file:

- `Tokens`: `estimate_tokens`, with the tokenizer as a parameter.
- `Selector`: `is_relevant_file`.
- `Priority`: `get_file_priority`.
- `StableSort`: Python's stable `list.sort(key=…)`.
- `Annotator`: `process_imports` and the file banner.
- `ChunkWriter`: `write_chunk`.
- `Packer`: the packing loop of `flatten`. It takes the banner-and-imports
  annotation as a parameter; `Flatten` passes `Annotator.Annotate`.
- `Manifest`: `create_chunk_manifest`.
- `Flattener`: the configuration and `flatten` itself.
- `Strings`, `Seqs`, `Wrappers`: helpers.

The chunk writer and the packing loop are imperative methods. Their
postconditions tie them to specification functions: `ChunkText` and the
`IsGreedyPartition` predicate. Lemmas prove what those specifications
promise:

- the chunk boundaries are uniquely determined;
- no file is split;
- nothing is written exactly when nothing could be read;
- the listing and the manifest name the files in chunk order.

`ProjectFlattener` never updates its fields after `__init__`, so the
configuration is a `Config` value.

Relative imports, those whose specifier starts with `.`, are not kept as
they are. `replace_import` replaces each one with two comment lines,
`// Original import: <match>` and
`// Flattened version would be: import from '<specifier>'`. The original
statement survives only inside the first comment (`Annotator.ReplaceImport`,
`Annotator.ReplaceImportKeepsOriginal`).

## Model

| member | source | states |
|---|---|---|
| Tokens.EstimateTokens | ts_flattener.py:11-17 | the tokenizer's count when it succeeds; otherwise `len(text) // 4`, i.e. `4r <= len(text) < 4r + 4` |
| Selector.AnyUnderDir | ts_flattener.py:55-57 | true exactly when some excluded name occurs as `/name/` in the path or ends it as `/name` |
| Selector.AnyEndsWith | ts_flattener.py:61-63 | true exactly when some allowed extension ends the path |
| Selector.IsRelevantFile | ts_flattener.py:37-69 | relevant exactly when no excluded directory is on the path, an allowed extension ends it, and it does not end in `.test.ts`/`.test.tsx` |
| Selector.OtherTestSuffixesKept | ts_flattener.py:66-67 | `.test.js` and `.spec.ts` files outside excluded directories are kept: only the two TypeScript test suffixes are rejected |
| Selector.BuildingsNotExcluded | ts_flattener.py:55-57 | `/buildings/index.ts` is kept: `build` excludes a whole path segment, not a prefix of one |
| Priority.AnyContained | ts_flattener.py:74-75 | true exactly when some priority substring occurs in the path |
| Priority.TableFrom | ts_flattener.py:78-90 | scanning the table from entry i gives entry j's value exactly when `/key_j/` is the first key, in table order from entry i, that occurs in the path; 99 when none occurs |
| Priority.GetFilePriority | ts_flattener.py:71-90 | the key is 0 exactly for a prioritised path; otherwise the value of the first table key `/name/` in the path; otherwise 99 |
| Priority.KeyBands | ts_flattener.py:71-90 | prioritised paths rank before all others, and table-matched paths rank before unmatched ones |
| Priority.EmptyPrioritizeNeverZero | ts_flattener.py:74-75 | without priority substrings no path gets key 0 |
| Priority.TableOrderWins | ts_flattener.py:85-89 | table order decides: a path containing `/components/` gets 1 whatever other keys it holds |
| Priority.ComponentsExample | ts_flattener.py:71-90 | `src/components/Foo.ts` ranks 1, or 0 once `src/components` is a priority substring |
| StableSort.Insert | ts_flattener.py:128 | inserting keeps every element, adding one |
| StableSort.SortByKey | ts_flattener.py:128 | sorting is a permutation of its input |
| StableSort.SortByKeySorted | ts_flattener.py:128 | the result is ordered by key |
| StableSort.SortByKeyStable | ts_flattener.py:128 | the elements with each key keep their input order (stability) |
| StableSort.WithKeyMembers | ts_flattener.py:128 | the elements selected by key are elements of the input with that key |
| StableSort.StableSortIsSortByKey | ts_flattener.py:128 | any key-ordered, per-key stable arrangement equals `SortByKey`: the stable sort's result is unique |
| StableSort.SortedUnique | ts_flattener.py:128 | two key-ordered sequences with the same elements per key in the same order are equal |
| Annotator.ReplaceImport | ts_flattener.py:95-99 | a non-relative import is returned unchanged; a relative one becomes the `// Original import:` comment holding the match, then the `// Flattened version would be:` comment naming the specifier |
| Annotator.ReplaceImportKeepsOriginal | ts_flattener.py:95-99 | the original import text can be recovered from the replacement and the specifier |
| Annotator.ProcessImports | ts_flattener.py:92-102 | `re.sub` with `replace_import`: the processed text is never shorter than the file's text |
| Annotator.ProcessImportsUnchangedIff | ts_flattener.py:92-102 | processing never shortens the content, and leaves it unchanged exactly when it has no relative import |
| Annotator.BannerHeader | ts_flattener.py:144 | the banner is the blank line, rule and `# File: `, then the relative path, a line break, the closing rule and a blank line; the path sits right after `# File: ` |
| Annotator.Annotate | ts_flattener.py:144 | a file's chunk content starts with its banner and is at least as long as the banner and the file's text together |
| Annotator.ParseFramedRoundTrip | ts_flattener.py:144 | a path without a line break, framed between any lead and tail, is read back with the text after the frame |
| Annotator.ParseBannerRoundTrip | ts_flattener.py:144 | for a path without a line break, the banner gives back the relative path and the processed content |
| Annotator.AnnotateKeepsText | ts_flattener.py:144 | a file without relative imports appears as its banner followed by its unchanged text |
| Strings.NatToStringInjective | ts_flattener.py:148 | distinct chunk numbers print differently |
| ChunkWriter.ChunkName | ts_flattener.py:148 | the name is `chunk_`, the decimal chunk number, then `.txt` |
| ChunkWriter.ChunkNameInjective | ts_flattener.py:148 | distinct chunk numbers give distinct `chunk_<n>.txt` names |
| ChunkWriter.WriteChunk | ts_flattener.py:195-208 | the written text is the `# Chunk:` header, the `## Contained Files:` listing, the `=` divider, then the contents in order |
| ChunkWriter.ContentContiguous | ts_flattener.py:207-208 | each file's content lies whole and unsplit in the chunk, after the contents of the files before it |
| ChunkWriter.ListedInOrder | ts_flattener.py:202-203 | each file is listed on its own `- <path>` line, in chunk order |
| Packer.ReadEntries | ts_flattener.py:139-159 | at most one entry per file; files whose read raised contribute none |
| Packer.Paths | ts_flattener.py:150 | one path per entry, and every entry's relative path is listed |
| Packer.FlushChunk | ts_flattener.py:147-154 | a flush appends the running chunk and records it as `chunk_<n>.txt`, with its paths and its written text, while the chunks stay greedy |
| Packer.AddEntry | ts_flattener.py:147-157 | adding a file flushes first exactly when it would overflow a non-empty chunk; entries, greediness and records are preserved |
| Packer.PackChunks | ts_flattener.py:135-168 | the chunks, in order, are exactly the read files' entries; they form a greedy partition; each chunk k is recorded and written as `chunk_<k+1>.txt` |
| Packer.GreedyPartitionUnique | ts_flattener.py:147-157 | two greedy partitions of the same entries are equal, so the packer's chunking is the only one |
| Packer.FirstChunkLongest | ts_flattener.py:147 | a greedy partition's first chunk is as long as any other greedy partition's |
| Packer.GreedyTail | ts_flattener.py:147-157 | after its first chunk, a greedy partition is a greedy partition of the remaining entries |
| Packer.CostPrefixMono | ts_flattener.py:157 | the running token total never decreases as files are appended |
| Packer.ReadEntriesEmptyIff | ts_flattener.py:139-159 | nothing is packed exactly when no file could be read |
| Packer.ReadEntriesFrom | ts_flattener.py:137-156 | every entry is a read file's relative path with the annotation of its content, and every read file has its entry |
| Packer.AllReadKeepsPaths | ts_flattener.py:137-156 | when every file is read, the entries keep all relative paths in sorted order |
| Packer.PathsConcat | ts_flattener.py:150 | the chunks' path lists, one after another, list every packed file in order |
| Packer.NoChunksIffEmpty | ts_flattener.py:164 | a greedy partition has no chunk exactly when there is nothing to pack |
| Packer.NoChunksIffNothingRead | ts_flattener.py:164-168 | no chunk is written exactly when every read failed |
| Manifest.ChunksOf | ts_flattener.py:180-185 | the chunks dictionary read back has one entry per record |
| Manifest.CreateChunkManifest | ts_flattener.py:174-186 | the manifest is consistent (`total_chunks` is the number of chunks, each `file_count` is its list's length), keeps the project path, and gives back the chunks dictionary unchanged and in order |
| Manifest.FileCountsAddUp | ts_flattener.py:183 | the `file_count` fields add up to the number of files listed |
| Manifest.JoinPath | ts_flattener.py:189 | `os.path.join` of one name: an absolute name is returned as it is; otherwise the directory, then one `/` exactly when the directory is non-empty and does not already end with one, then the name |
| Flattener.NewConfig | ts_flattener.py:21-31 | omitted options take the defaults `flattened_output` and 150000; a missing priority list becomes empty |
| Flattener.SelectRelevantFiles | ts_flattener.py:111-117 | the scan splits the walked files into those `is_relevant_file` keeps and those it rejects, in walk order |
| Flattener.SelectionPartitions | ts_flattener.py:111-117 | every walked file lands in exactly one of the two lists: nothing is lost or duplicated |
| Flattener.SelectionVerdicts | ts_flattener.py:113-117 | the relevant list holds only files `is_relevant_file` accepts, the excluded list only files it rejects |
| Flattener.PriorityOrder | ts_flattener.py:128 | `all_files.sort(key=self.get_file_priority)`: the result is ordered by priority and holds the same files |
| Flattener.PriorityOrderSortsStably | ts_flattener.py:128 | the sorted files are ordered by priority, keep walk order within a priority, and are the same files |
| Flattener.RecordedNamesDistinct | ts_flattener.py:148-150 | the chunk names are distinct, so no `chunks[chunk_file]` assignment overwrites another |
| Flattener.ManifestListsPacked | ts_flattener.py:177-186 | the manifest of the recorded chunks lists the packed files' paths, chunk after chunk, in packing order |
| Flattener.Flatten | ts_flattener.py:104-172 | selects exactly the relevant files; greedily partitions the read ones in priority order and records every chunk; the manifest's chunks and file lists are those chunks; no chunk exactly when nothing could be read; the manifest goes to `os.path.join(output_dir, "manifest.json")` |

## Left out

- The tokenizer (`tiktoken`) is a foreign library. It is the parameter `encode`; `None` stands for the exception it may raise.
- Reading files is I/O. Each file's read result is an input: the regex segmentation of its content, or `None` when opening or UTF-8 decoding raised. The `os.makedirs` of the output directory is not modelled.
- The `re.sub` regex engine is not modelled. Content is given as the engine's segmentation into plain text and matches of `(import.*from\s+['"])(.[^'"]*)(['"])`, with the three groups of each match; nothing constrains that segmentation. Only the replacement and the reassembly are modelled.
- `os.walk`, `Path.resolve`, `os.path.relpath` and `os.path.abspath` touch the file system. Each walked file comes with its joined path, its resolved path and its relative path, and `Flattener.NewConfig` takes the absolute project path; none of these is constrained. Symlink resolution and separator normalisation happen outside the model.
- Progress output (`print`, `tqdm`), the sample of excluded files, the per-file warning message and the `__main__` prompt are console I/O.
- Writing to disk is not modelled. `Packer.PackChunks` returns each chunk file as a (name, text) pair; `Flattener.Flatten` returns the manifest object and the path it goes to.
- The JSON text of `manifest.json` (`json.dump` with indentation) is not modelled, only the manifest object.
- Packer.FlushChunk: assumes `write_chunk` succeeds. In the source, the `except Exception` around each file also catches a failure of the flush's `write_chunk`; the file is then skipped and the running chunk, its token count and the chunk number stay as they were. That path is not modelled, so `Packer.PackChunks` and `Flattener.Flatten` describe only runs in which every write succeeds.
