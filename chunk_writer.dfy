/**
 * The chunk writer (`write_chunk`): the text of one `chunk_<n>.txt` file, a
 * header naming the chunk, one `- <path>` line per file, a rule of 80 `=` and
 * then every file's content, all in chunk order.
 */
module ChunkWriter {
  import opened Strings
  import opened Seqs

  /** One file of a chunk: its relative path and its bannered content. */
  datatype Entry = Entry(relPath: string, content: string)

  /** `f"chunk_{n}.txt"`. */
  function ChunkName(n: nat): (r: string)
    ensures StartsWith(r, "chunk_") && EndsWith(r, ".txt")
    ensures |r| == |NatToString(n)| + 10 && r[6..|r| - 4] == NatToString(n)
  {
    "chunk_" + NatToString(n) + ".txt"
  }

  /** Distinct chunk numbers give distinct file names. */
  lemma ChunkNameInjective(a: nat, b: nat)
    requires ChunkName(a) == ChunkName(b)
    ensures a == b
  {
    var s := ChunkName(a);
    assert NatToString(a) == s[6..|s| - 4];
    assert NatToString(b) == ChunkName(b)[6..|s| - 4];
    NatToStringInjective(a, b);
  }

  function ChunkHeader(name: string): string {
    "# Chunk: " + name + "\n\n" + "## Contained Files:\n"
  }

  const DIVIDER: string := "\n" + Repeat('=', 80) + "\n\n"

  /** The listing line of each entry. */
  function Lines(entries: seq<Entry>): seq<string> {
    seq(|entries|, i requires 0 <= i < |entries| => "- " + entries[i].relPath + "\n")
  }

  /** The content of each entry. */
  function Bodies(entries: seq<Entry>): seq<string> {
    seq(|entries|, i requires 0 <= i < |entries| => entries[i].content)
  }

  lemma LinesSnoc(entries: seq<Entry>, i: nat)
    requires i < |entries|
    ensures Concat(Lines(entries[..i + 1])) == Concat(Lines(entries[..i])) + ("- " + entries[i].relPath + "\n")
  {
    assert Lines(entries[..i + 1]) == Lines(entries[..i]) + ["- " + entries[i].relPath + "\n"];
    ConcatSnoc(Lines(entries[..i]), "- " + entries[i].relPath + "\n");
  }

  lemma BodiesSnoc(entries: seq<Entry>, i: nat)
    requires i < |entries|
    ensures Concat(Bodies(entries[..i + 1])) == Concat(Bodies(entries[..i])) + entries[i].content
  {
    assert Bodies(entries[..i + 1]) == Bodies(entries[..i]) + [entries[i].content];
    ConcatSnoc(Bodies(entries[..i]), entries[i].content);
  }

  /** The whole text of a chunk file. */
  function ChunkText(name: string, entries: seq<Entry>): string {
    ChunkHeader(name) + Concat(Lines(entries)) + DIVIDER + Concat(Bodies(entries))
  }

  /** Writes the chunk file sequentially, as `write_chunk` does. */
  method WriteChunk(name: string, entries: seq<Entry>) returns (text: string)
    ensures text == ChunkText(name, entries)
  {
    text := "# Chunk: " + name + "\n\n";
    text := text + "## Contained Files:\n";
    ghost var header := text;
    assert header == ChunkHeader(name);
    for i := 0 to |entries|
      invariant text == header + Concat(Lines(entries[..i]))
    {
      LinesSnoc(entries, i);
      AppendAssoc(header, Concat(Lines(entries[..i])), "- " + entries[i].relPath + "\n");
      text := text + ("- " + entries[i].relPath + "\n");
    }
    assert entries[..|entries|] == entries;
    text := text + ("\n" + Repeat('=', 80) + "\n\n");
    ghost var listing := text;
    assert listing == header + Concat(Lines(entries)) + DIVIDER;
    for i := 0 to |entries|
      invariant text == listing + Concat(Bodies(entries[..i]))
    {
      BodiesSnoc(entries, i);
      AppendAssoc(listing, Concat(Bodies(entries[..i])), entries[i].content);
      text := text + entries[i].content;
    }
  }

  /** Where the content of entry `i` starts in the chunk text. */
  function ContentOffset(name: string, entries: seq<Entry>, i: nat): nat
    requires i <= |entries|
  {
    |ChunkHeader(name)| + |Concat(Lines(entries))| + |DIVIDER| + |Concat(Bodies(entries[..i]))|
  }

  /** No file is split: each entry's content lies whole and contiguous in the
      chunk text, after the contents of the entries before it. */
  lemma ContentContiguous(name: string, entries: seq<Entry>, i: nat)
    requires i < |entries|
    ensures OccursAt(ChunkText(name, entries), entries[i].content, ContentOffset(name, entries, i))
  {
    var bodies := Bodies(entries);
    assert bodies[..i] == Bodies(entries[..i]);
    var pre := ChunkHeader(name) + Concat(Lines(entries)) + DIVIDER;
    PartInside(pre, bodies, [], i);
    assert pre + Concat(bodies) + [] == ChunkText(name, entries);
  }

  /** The listing names every entry, in chunk order, each on its own line. */
  lemma ListedInOrder(name: string, entries: seq<Entry>, i: nat)
    requires i < |entries|
    ensures OccursAt(ChunkText(name, entries), "- " + entries[i].relPath + "\n",
                     |ChunkHeader(name)| + |Concat(Lines(entries[..i]))|)
  {
    var lines := Lines(entries);
    assert lines[..i] == Lines(entries[..i]);
    var h := ChunkHeader(name);
    AppendAssoc(h + Concat(lines), DIVIDER, Concat(Bodies(entries)));
    PartInside(h, lines, DIVIDER + Concat(Bodies(entries)), i);
  }
}
