/**
 * The priority ranker (`get_file_priority`): 0 for a path holding one of the
 * caller's priority substrings, else the value of the first entry of a fixed
 * table whose `/key/` occurs in the path, else 99. Lower keys are packed first.
 */
module Priority {
  import opened Strings

  const PRIORITY_TABLE: seq<(string, nat)> :=
    [("components", 1), ("pages", 2), ("features", 3), ("utils", 4), ("types", 5), ("styles", 6)]
  const UNMATCHED: nat := 99

  /** The table's directory key `/name/` of entry `j`. */
  function TableKey(j: nat): string
    requires j < |PRIORITY_TABLE|
  {
    "/" + PRIORITY_TABLE[j].0 + "/"
  }

  /** `any(p in path for p in prioritize)`: a plain substring test. */
  function AnyContained(path: string, prioritize: seq<string>): (r: bool)
    ensures r ==> exists p :: p in prioritize && Contains(path, p)
    ensures (exists p :: p in prioritize && Contains(path, p)) ==> r
  {
    if prioritize == [] then false
    else
      assert prioritize[0] in prioritize;
      assert forall p :: p in prioritize ==> p == prioritize[0] || p in prioritize[1..];
      Contains(path, prioritize[0]) || AnyContained(path, prioritize[1..])
  }

  /** The scan of the table from entry `i` on, in table order. */
  function TableFrom(path: string, i: nat): (r: nat)
    requires i <= |PRIORITY_TABLE|
    ensures r == UNMATCHED <==> forall j :: i <= j < |PRIORITY_TABLE| ==> !Contains(path, TableKey(j))
    ensures forall j :: i <= j < |PRIORITY_TABLE| ==>
              (r == PRIORITY_TABLE[j].1 <==>
                 Contains(path, TableKey(j)) && forall k :: i <= k < j ==> !Contains(path, TableKey(k)))
    decreases |PRIORITY_TABLE| - i
  {
    if i == |PRIORITY_TABLE| then UNMATCHED
    else if Contains(path, TableKey(i)) then PRIORITY_TABLE[i].1
    else TableFrom(path, i + 1)
  }

  /** The key `get_file_priority` gives: 0 exactly for a prioritised path; the
      value of table entry `j` exactly when `/key_j/` is the first table key in
      the path and the path is not prioritised; 99 when nothing matches. */
  function GetFilePriority(prioritize: seq<string>, path: string): (r: nat)
    ensures r in {0, 1, 2, 3, 4, 5, 6, 99}
    ensures r == 0 <==> exists p :: p in prioritize && Contains(path, p)
    ensures forall j :: 0 <= j < |PRIORITY_TABLE| ==>
              (r == PRIORITY_TABLE[j].1 <==>
                 (forall p :: p in prioritize ==> !Contains(path, p))
                 && Contains(path, TableKey(j))
                 && forall k :: 0 <= k < j ==> !Contains(path, TableKey(k)))
    ensures r == UNMATCHED <==>
              (forall p :: p in prioritize ==> !Contains(path, p))
              && forall j :: 0 <= j < |PRIORITY_TABLE| ==> !Contains(path, TableKey(j))
  {
    if AnyContained(path, prioritize) then 0 else TableFrom(path, 0)
  }

  /** The three bands of the order: a prioritised path comes before any
      other, and a path the table matches comes before an unmatched one. */
  lemma KeyBands(prioritize: seq<string>, a: string, b: string)
    ensures AnyContained(a, prioritize) && !AnyContained(b, prioritize) ==>
              GetFilePriority(prioritize, a) < GetFilePriority(prioritize, b)
    ensures GetFilePriority(prioritize, a) != 0 && GetFilePriority(prioritize, a) != UNMATCHED &&
            GetFilePriority(prioritize, b) == UNMATCHED ==>
              GetFilePriority(prioritize, a) < GetFilePriority(prioritize, b)
  {
  }

  /** Without priority substrings no path gets key 0. */
  lemma EmptyPrioritizeNeverZero(path: string)
    ensures GetFilePriority([], path) != 0
  {
  }

  /** The table is consulted in table order, not in path order: a path under
      both `/utils/` and `/components/` gets the `components` key 1. */
  lemma TableOrderWins(prioritize: seq<string>, path: string)
    requires forall p :: p in prioritize ==> !Contains(path, p)
    requires Contains(path, "/components/")
    ensures GetFilePriority(prioritize, path) == 1
  {
    assert TableKey(0) == "/components/";
  }

  /** `src/components/Foo.ts` ranks 1 with no priority substrings and 0 once
      `src/components` is one. */
  lemma ComponentsExample()
    ensures GetFilePriority([], "src/components/Foo.ts") == 1
    ensures GetFilePriority(["src/components"], "src/components/Foo.ts") == 0
  {
    var p := "src/components/Foo.ts";
    assert OccursAt(p, "/components/", 3);
    ContainsIffOccurs(p, "/components/");
    TableOrderWins([], p);
    assert OccursAt(p, "src/components", 0);
    ContainsIffOccurs(p, "src/components");
  }
}
