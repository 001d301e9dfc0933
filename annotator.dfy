/**
 * The annotator: `process_imports` with its `replace_import` callback, and the
 * banner that heads every file's content in a chunk.
 *
 * The regular-expression engine is not modelled. A file's text is given as the
 * split that `re.sub` makes of it with the pattern
 * `(import.*from\s+['"])(.[^'"]*)(['"])`: text between matches, and the
 * matches with their three groups.
 */
module Annotator {
  import opened Wrappers
  import opened Strings
  import opened Seqs

  datatype Segment =
    | Text(text: string)
      /** One match: group 1 (`import ... from '`), group 2 (the module
          specifier) and group 3 (the closing quote). */
    | Import(head: string, specifier: string, quote: string)

  /** `match.group(0)`, the whole matched text. */
  function MatchText(head: string, specifier: string, quote: string): string {
    head + specifier + quote
  }

  predicate IsRelative(specifier: string) {
    StartsWith(specifier, ".")
  }

  const ORIGINAL_LABEL: string := "// Original import: "
  const FLATTENED_LABEL: string := "\n// Flattened version would be: import from '"

  /** `replace_import`: a match with a relative specifier is replaced by two
      comment lines, the first echoing the match; any other match is kept. */
  function ReplaceImport(head: string, specifier: string, quote: string): (r: string)
    ensures !IsRelative(specifier) ==> r == MatchText(head, specifier, quote)
    ensures IsRelative(specifier) ==>
              StartsWith(r, ORIGINAL_LABEL + MatchText(head, specifier, quote) + FLATTENED_LABEL)
              && EndsWith(r, "import from '" + specifier + "'")
              && |r| == |ORIGINAL_LABEL| + |MatchText(head, specifier, quote)| + |FLATTENED_LABEL| + |specifier| + 1
  {
    if IsRelative(specifier) then
      ORIGINAL_LABEL + MatchText(head, specifier, quote) + FLATTENED_LABEL + specifier + "'"
    else
      MatchText(head, specifier, quote)
  }

  /** Reads the matched text back out of what `ReplaceImport` produced. */
  function OriginalOf(specifier: string, replaced: string): string {
    if IsRelative(specifier)
       && |ORIGINAL_LABEL| + |FLATTENED_LABEL| + |specifier| + 1 <= |replaced|
    then replaced[|ORIGINAL_LABEL|..|replaced| - |FLATTENED_LABEL| - |specifier| - 1]
    else replaced
  }

  /** The original import statement survives, verbatim, inside the comment. */
  lemma ReplaceImportKeepsOriginal(head: string, specifier: string, quote: string)
    ensures OriginalOf(specifier, ReplaceImport(head, specifier, quote)) == MatchText(head, specifier, quote)
  {
    if IsRelative(specifier) {
      var m := MatchText(head, specifier, quote);
      Enclosed(ORIGINAL_LABEL, m, FLATTENED_LABEL, specifier);
    }
  }

  /** Whatever the labels, the text between them is recovered by lengths. */
  lemma Enclosed(lead: string, m: string, note: string, specifier: string)
    ensures var r := lead + m + note + specifier + "'";
            |lead| + |note| + |specifier| + 1 <= |r| &&
            r[|lead|..|r| - |note| - |specifier| - 1] == m
  {
    var r := lead + m + note + specifier + "'";
    assert r == lead + m + (note + specifier + "'");
  }



  /** The file's text as the segments spell it. */
  function Original(segs: seq<Segment>): string {
    if segs == [] then ""
    else
      match segs[0]
      case Text(t) => t + Original(segs[1..])
      case Import(h, s, q) => MatchText(h, s, q) + Original(segs[1..])
  }

  /** `re.sub(pattern, replace_import, content)`: every match replaced by what
      `replace_import` returns, the text between matches kept. */
  function ProcessImports(segs: seq<Segment>): (r: string)
    ensures |r| >= |Original(segs)|
  {
    if segs == [] then ""
    else
      match segs[0]
      case Text(t) => t + ProcessImports(segs[1..])
      case Import(h, s, q) => ReplaceImport(h, s, q) + ProcessImports(segs[1..])
  }

  predicate HasRelativeImport(segs: seq<Segment>) {
    exists i :: 0 <= i < |segs| && segs[i].Import? && IsRelative(segs[i].specifier)
  }

  /** Processing never shortens a file, and leaves it exactly as it was if and
      only if it has no relative import. */
  lemma {:induction false} ProcessImportsUnchangedIff(segs: seq<Segment>)
    ensures |ProcessImports(segs)| >= |Original(segs)|
    ensures ProcessImports(segs) == Original(segs) <==> !HasRelativeImport(segs)
  {
    if segs != [] {
      ProcessImportsUnchangedIff(segs[1..]);
      var rest := segs[1..];
      assert HasRelativeImport(segs) <==>
             (segs[0].Import? && IsRelative(segs[0].specifier)) || HasRelativeImport(rest) by {
        if HasRelativeImport(rest) {
          var i :| 0 <= i < |rest| && rest[i].Import? && IsRelative(rest[i].specifier);
          assert segs[i + 1] == rest[i];
        }
        if HasRelativeImport(segs) {
          var i :| 0 <= i < |segs| && segs[i].Import? && IsRelative(segs[i].specifier);
          if i > 0 { assert rest[i - 1] == segs[i]; }
        }
      }
      match segs[0]
      case Text(t) =>
        assert ProcessImports(segs) == t + ProcessImports(rest);
        assert Original(segs) == t + Original(rest);
        if ProcessImports(segs) == Original(segs) {
          assert ProcessImports(rest) == ProcessImports(segs)[|t|..] == Original(segs)[|t|..] == Original(rest);
        }
      case Import(h, s, q) =>
        var r := ReplaceImport(h, s, q);
        var m := MatchText(h, s, q);
        assert ProcessImports(segs) == r + ProcessImports(rest);
        assert Original(segs) == m + Original(rest);
        if !IsRelative(s) && ProcessImports(segs) == Original(segs) {
          assert ProcessImports(rest) == ProcessImports(segs)[|m|..] == Original(segs)[|m|..] == Original(rest);
        }
    }
  }

  const RULE: string := Repeat('#', 80)

  /** The lines put before a file's content: a blank line, a rule of 80 `#`,
      `# File: <relPath>`, a second rule and a blank line. */
  function BannerHeader(relPath: string): (r: string)
    ensures StartsWith(r, BANNER_LEAD) && EndsWith(r, BANNER_TAIL)
    ensures |r| == |BANNER_LEAD| + |relPath| + 1 + |BANNER_TAIL|
    ensures r[|BANNER_LEAD|..|BANNER_LEAD| + |relPath|] == relPath && r[|BANNER_LEAD| + |relPath|] == '\n'
  {
    Framed(BANNER_LEAD, relPath, BANNER_TAIL);
    BANNER_LEAD + relPath + "\n" + BANNER_TAIL
  }

  /** Where a line between a lead and a tail sits in the framed text. */
  lemma Framed(lead: string, line: string, tail: string)
    ensures var r := lead + line + "\n" + tail;
            && StartsWith(r, lead) && EndsWith(r, tail)
            && |r| == |lead| + |line| + 1 + |tail|
            && r[|lead|..|lead| + |line|] == line && r[|lead| + |line|] == '\n'
  {
    var r := lead + line + "\n" + tail;
    assert r[..|lead|] == lead;
    assert r[|r| - |tail|..] == tail;
    assert r[|lead|..|lead| + |line|] == line;
  }

  /** The banner up to the path: a blank line, the rule and `# File: `. */
  const BANNER_LEAD: string := "\n\n" + RULE + "\n# File: "
  /** The banner after the path's line: the rule and a blank line. */
  const BANNER_TAIL: string := RULE + "\n\n"

  /** The content of a file in a chunk: the banner, then the processed text. */
  function Annotate(relPath: string, segs: seq<Segment>): (r: string)
    ensures StartsWith(r, BannerHeader(relPath))
    ensures |r| >= |BannerHeader(relPath)| + |Original(segs)|
  {
    BannerHeader(relPath) + ProcessImports(segs)
  }

  /** The index of the first `c` in `s`, or `|s|` if there is none. */
  function IndexOf(s: string, c: char): (i: nat)
    ensures i <= |s|
    ensures forall j :: 0 <= j < i ==> s[j] != c
    ensures i < |s| ==> s[i] == c
  {
    if s == [] || s[0] == c then 0 else 1 + IndexOf(s[1..], c)
  }

  /** Reads `lead + path + "\n" + tail + body` back into path and body. */
  function ParseFramed(lead: string, tail: string, annotated: string): Option<(string, string)> {
    if !StartsWith(annotated, lead) then None
    else
      var rest := annotated[|lead|..];
      var n := IndexOf(rest, '\n');
      if n < |rest| && StartsWith(rest[n + 1..], tail)
      then Some((rest[..n], rest[n + 1 + |tail|..]))
      else None
  }

  /** Reads a bannered content back into the relative path and the processed text. */
  function ParseBanner(annotated: string): Option<(string, string)> {
    ParseFramed(BANNER_LEAD, BANNER_TAIL, annotated)
  }

  /** Framing is undone by parsing, for any lead and tail, when the path has no line break. */
  lemma ParseFramedRoundTrip(lead: string, tail: string, relPath: string, processed: string)
    requires '\n' !in relPath
    ensures ParseFramed(lead, tail, lead + (relPath + "\n" + tail + processed)) == Some((relPath, processed))
  {
    var a := lead + (relPath + "\n" + tail + processed);
    var rest := a[|lead|..];
    assert rest == relPath + "\n" + tail + processed;
    var n := IndexOf(rest, '\n');
    assert forall j :: 0 <= j < |relPath| ==> rest[j] == relPath[j] && rest[j] != '\n';
    assert rest[|relPath|] == '\n';
    assert n == |relPath|;
    assert a[..|lead|] == lead;
    assert rest[..n] == relPath;
    assert rest[n + 1..] == tail + processed;
    assert (tail + processed)[..|tail|] == tail;
    assert rest[n + 1 + |tail|..] == processed;
  }

  /** The banner names its file unambiguously: for a path without a line
      break, path and processed text are recovered from the content. */
  lemma ParseBannerRoundTrip(relPath: string, processed: string)
    requires '\n' !in relPath
    ensures ParseBanner(BannerHeader(relPath) + processed) == Some((relPath, processed))
  {
    Regroup(BANNER_LEAD, relPath, "\n", BANNER_TAIL, processed);
    ParseFramedRoundTrip(BANNER_LEAD, BANNER_TAIL, relPath, processed);
  }

  /** A file with no relative import appears in its chunk as its banner
      followed by its text, unchanged. */
  lemma AnnotateKeepsText(relPath: string, segs: seq<Segment>)
    requires !HasRelativeImport(segs)
    ensures Annotate(relPath, segs) == BannerHeader(relPath) + Original(segs)
  {
    ProcessImportsUnchangedIff(segs);
  }
}
