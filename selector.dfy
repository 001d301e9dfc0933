/**
 * The file selector (`is_relevant_file`): a decision on the normalised path
 * string alone, by an excluded-directory rule, an extension allow-list and a
 * test-suffix exclusion.
 */
module Selector {
  import opened Strings

  const EXCLUDED_DIRS: seq<string> := ["node_modules", "build", "dist", ".next", ".git", ".cache"]
  const EXTENSIONS: seq<string> := [".ts", ".tsx", ".js", ".jsx", ".css", ".scss", ".json"]

  /** `/name/` occurs anywhere in the path, or the path ends with `/name`. */
  predicate UnderDir(path: string, name: string) {
    Contains(path, "/" + name + "/") || EndsWith(path, "/" + name)
  }

  predicate IsTestFile(path: string) {
    EndsWith(path, ".test.ts") || EndsWith(path, ".test.tsx")
  }

  /** `any(... for excluded in names)`, short-circuiting from the left. */
  function AnyUnderDir(path: string, names: seq<string>): (r: bool)
    ensures r <==> exists name :: name in names && UnderDir(path, name)
  {
    if names == [] then false
    else UnderDir(path, names[0]) || AnyUnderDir(path, names[1..])
  }

  /** `any(path.endswith(ext) for ext in exts)`. */
  function AnyEndsWith(path: string, exts: seq<string>): (r: bool)
    ensures r <==> exists ext :: ext in exts && EndsWith(path, ext)
  {
    if exts == [] then false
    else EndsWith(path, exts[0]) || AnyEndsWith(path, exts[1..])
  }

  /** True exactly when no excluded directory matches, an allowed extension ends
      the path and the path is not a `.test.ts`/`.test.tsx` file. */
  function IsRelevantFile(path: string): (r: bool)
    ensures r <==> (forall name :: name in EXCLUDED_DIRS ==> !UnderDir(path, name))
                   && (exists ext :: ext in EXTENSIONS && EndsWith(path, ext))
                   && !IsTestFile(path)
  {
    if AnyUnderDir(path, EXCLUDED_DIRS) then false
    else if !AnyEndsWith(path, EXTENSIONS) then false
    else if IsTestFile(path) then false
    else true
  }

  /** Only `.test.ts` and `.test.tsx` are test files: `.test.js` and `.spec.ts`
      files outside the excluded directories are kept. */
  lemma OtherTestSuffixesKept(path: string)
    requires EndsWith(path, ".test.js") || EndsWith(path, ".spec.ts")
    requires forall name :: name in EXCLUDED_DIRS ==> !UnderDir(path, name)
    ensures IsRelevantFile(path)
  {
    var n := |path|;
    if EndsWith(path, ".test.js") {
      EndsWithSuffix(path, ".test", ".js");
      assert ".js" in EXTENSIONS;
      assert path[n - 1] == ".test.js"[7] == 's';
      assert path[n - 2] == ".test.js"[6] == 'j';
    } else {
      EndsWithSuffix(path, ".spec", ".ts");
      assert ".ts" in EXTENSIONS;
      assert path[n - 1] == ".spec.ts"[7] == 's';
      assert path[n - 7] == ".spec.ts"[1] == 's';
    }
  }

  /** Every `/` of the example path below sits at index 0 or 10. */
  lemma ExampleSlashes(i: int)
    requires 0 <= i < |"/buildings/index.ts"| && "/buildings/index.ts"[i] == '/'
    ensures i == 0 || i == 10
  {
  }

  /** In the example path a directory name matches only when its length fits
      the slashes at 0 and 10: as `/name/` it must have 9 characters, as a
      final `/name` 8 or 18. */
  lemma ExampleUnderDir(name: string)
    requires |name| != 8 && |name| != 9 && |name| != 18
    ensures !UnderDir("/buildings/index.ts", name)
  {
    var p := "/buildings/index.ts";
    var sub := "/" + name + "/";
    ContainsIffOccurs(p, sub);
    forall i | OccursAt(p, sub, i)
      ensures false
    {
      assert p[i] == sub[0] == '/';
      assert p[i + |name| + 1] == sub[|name| + 1] == '/';
      ExampleSlashes(i);
      ExampleSlashes(i + |name| + 1);
    }
    if EndsWith(p, "/" + name) {
      assert p[|p| - |name| - 1] == ("/" + name)[0] == '/';
      ExampleSlashes(|p| - |name| - 1);
    }
  }

  /** A directory whose name merely starts with an excluded name (`buildings`
      against `build`) is not excluded. */
  lemma BuildingsNotExcluded()
    ensures IsRelevantFile("/buildings/index.ts")
  {
    var p := "/buildings/index.ts";
    forall name | name in EXCLUDED_DIRS
      ensures !UnderDir(p, name)
    {
      ExampleUnderDir(name);
    }
    assert ".ts" in EXTENSIONS && p[16..] == ".ts";
    assert p[11] == 'i' && p[18] == 's';
    assert !EndsWith(p, ".test.ts") && !EndsWith(p, ".test.tsx");
  }
}
