/** The migration script (scripts/migrate.py): which directories count as
    demos, the catalogue entry generated for a demo, the sorted config, the
    file rename rule and the list of migrated names. The file system itself
    (copying, creating directories, writing JSON) is not modelled: a
    directory listing is an input. */
module Migrate {
  import opened Text

  /** One entry of a directory listing, with what the script asks of it. */
  datatype DirEntry = DirEntry(name: string, isDir: bool, hasSrc: bool, hasIndexHtml: bool)

  /** Python `name.startswith('.')`. */
  predicate Hidden(name: string)
  {
    |name| > 0 && name[0] == '.'
  }

  predicate IsSourceDemo(d: DirEntry)
  {
    d.isDir && !Hidden(d.name)
  }

  predicate IsExistingDemo(d: DirEntry)
  {
    d.isDir && !Hidden(d.name) && d.hasSrc && d.hasIndexHtml
  }

  function FilterSourceDemos(entries: seq<DirEntry>): (r: seq<DirEntry>)
    ensures forall d :: d in r <==> d in entries && IsSourceDemo(d)
    ensures IsSublist(r, entries)
  {
    if |entries| == 0 then []
    else
      var rest := FilterSourceDemos(entries[1..]);
      if IsSourceDemo(entries[0]) then [entries[0]] + rest
      else (SublistOfTail(rest, entries); rest)
  }

  /** `get_demo_dirs`: the visible directories of the source folder, in
      listing order; `None` is a missing folder. */
  function GetDemoDirs(source: Option<seq<DirEntry>>): (r: seq<DirEntry>)
    ensures source.None? ==> r == []
    ensures source.Some? ==> forall d :: d in r <==> d in source.value && IsSourceDemo(d)
    ensures source.Some? ==> IsSublist(r, source.value)
  {
    match source
    case None => []
    case Some(entries) => FilterSourceDemos(entries)
  }

  function ExistingDemoNames(entries: seq<DirEntry>): (r: seq<string>)
    ensures |r| <= |entries|
    ensures forall n :: n in r <==> exists d :: d in entries && IsExistingDemo(d) && d.name == n
  {
    if |entries| == 0 then []
    else
      var rest := ExistingDemoNames(entries[1..]);
      assert forall d :: d in entries <==> d == entries[0] || d in entries[1..];
      if IsExistingDemo(entries[0]) then [entries[0].name] + rest else rest
  }

  /** `scan_existing_demos`: names of the visible directories of the target
      folder that hold both `src` and `index.html`. */
  function ScanExistingDemos(target: Option<seq<DirEntry>>): (r: seq<string>)
    ensures target.None? ==> r == []
    ensures target.Some? ==>
      forall n :: n in r <==> exists d :: d in target.value && IsExistingDemo(d) && d.name == n
  {
    match target
    case None => []
    case Some(entries) => ExistingDemoNames(entries)
  }

  /** Python `str.title`: a letter that follows a letter is lowered, any other
      letter is raised; everything else is kept. `previousIsCased` is the
      state CPython's loop carries from the previous character. */
  function TitleFrom(s: string, previousIsCased: bool): (r: string)
    ensures |r| == |s|
    ensures forall i :: 0 <= i < |s| && !IsLetter(s[i]) ==> r[i] == s[i]
    ensures forall i :: 0 <= i < |s| && IsLetter(s[i]) ==>
      r[i] == if (if i == 0 then previousIsCased else IsLetter(s[i - 1]))
              then LowerChar(s[i]) else UpperChar(s[i])
  {
    if |s| == 0 then ""
    else
      var c := s[0];
      var head := if !IsLetter(c) then c else if previousIsCased then LowerChar(c) else UpperChar(c);
      [head] + TitleFrom(s[1..], IsLetter(c))
  }

  function Title(s: string): (r: string)
    ensures |r| == |s|
    ensures forall i :: 0 <= i < |s| && !IsLetter(s[i]) ==> r[i] == s[i]
    ensures forall i :: 0 <= i < |s| && IsLetter(s[i]) ==>
      r[i] == if i > 0 && IsLetter(s[i - 1]) then LowerChar(s[i]) else UpperChar(s[i])
  {
    TitleFrom(s, false)
  }

  /** One generated catalogue entry (the dict of `generate_example_entry`). */
  datatype Entry = Entry(id: string, title: string, description: string, thumbnail: string, tags: seq<string>)

  function Spaced(name: string): string
  {
    ReplaceChar(name, '-', ' ')
  }

  function GenerateExampleEntry(name: string): (e: Entry)
    ensures e.id == name && e.tags == ["demo"]
    ensures e.thumbnail == "/src/demos/" + name + "/public/thumbnail.jpg"
    ensures e.description == "Three.js " + Spaced(name) + " demo"
    ensures e.title == Title(Spaced(name))
    ensures |e.title| == |name| && '-' !in e.title
    ensures forall i :: 0 <= i < |name| && name[i] == '-' ==> e.title[i] == ' '
  {
    var spaced := Spaced(name);
    var title := Title(spaced);
    assert '-' !in title by {
      forall i | 0 <= i < |title| ensures title[i] != '-' {
        if IsLetter(spaced[i]) {
          assert title[i] == if i > 0 && IsLetter(spaced[i - 1]) then LowerChar(spaced[i]) else UpperChar(spaced[i]);
        } else {
          assert title[i] == spaced[i];
        }
      }
    }
    Entry(name, title, "Three.js " + spaced + " demo",
          "/src/demos/" + name + "/public/thumbnail.jpg", ["demo"])
  }

  /** Each hyphen-separated word of the directory name starts with a capital in the title,
      and a letter that follows a letter is lower-cased. */
  lemma TitleCapitalisesWords(name: string, i: nat)
    requires i < |name| && IsLetter(name[i])
    ensures i == 0 || name[i - 1] == '-' ==> GenerateExampleEntry(name).title[i] == UpperChar(name[i])
    ensures i > 0 && IsLetter(name[i - 1]) ==> GenerateExampleEntry(name).title[i] == LowerChar(name[i])
  {
    var spaced := Spaced(name);
    assert spaced[i] == name[i];
    if i > 0 {
      assert spaced[i - 1] == if name[i - 1] == '-' then ' ' else name[i - 1];
    }
  }

  /** Python's order on strings: code point by code point, a proper prefix first. */
  predicate LexLe(a: string, b: string)
  {
    |a| == 0 || (|b| > 0 && (a[0] < b[0] || (a[0] == b[0] && LexLe(a[1..], b[1..]))))
  }

  lemma {:induction false} LexLeTotal(a: string, b: string)
    ensures LexLe(a, b) || LexLe(b, a)
  {
    if |a| > 0 && |b| > 0 && a[0] == b[0] {
      LexLeTotal(a[1..], b[1..]);
    }
  }

  lemma {:induction false} LexLeTransitive(a: string, b: string, c: string)
    requires LexLe(a, b) && LexLe(b, c)
    ensures LexLe(a, c)
  {
    if |a| > 0 && a[0] == b[0] && b[0] == c[0] {
      LexLeTransitive(a[1..], b[1..], c[1..]);
    }
  }

  lemma {:induction false} LexLeAntisymmetric(a: string, b: string)
    requires LexLe(a, b) && LexLe(b, a)
    ensures a == b
  {
    if |a| > 0 {
      LexLeAntisymmetric(a[1..], b[1..]);
    }
  }

  predicate SortedNames(s: seq<string>)
  {
    forall i, j :: 0 <= i < j < |s| ==> LexLe(s[i], s[j])
  }

  function Insert(x: string, s: seq<string>): (r: seq<string>)
    ensures multiset(r) == multiset(s) + multiset{x}
    ensures SortedNames(s) ==> SortedNames(r)
  {
    if |s| == 0 then [x]
    else if LexLe(x, s[0]) then
      InsertFront(x, s);
      [x] + s
    else
      var rest := Insert(x, s[1..]);
      InsertLater(x, s, rest);
      [s[0]] + rest
  }

  lemma InsertFront(x: string, s: seq<string>)
    requires |s| > 0 && LexLe(x, s[0])
    ensures SortedNames(s) ==> SortedNames([x] + s)
  {
    if SortedNames(s) {
      forall i, j | 0 <= i < j < |s| + 1 ensures LexLe(([x] + s)[i], ([x] + s)[j]) {
        if i == 0 {
          if j > 1 { LexLeTransitive(x, s[0], s[j - 1]); }
        } else {
          assert ([x] + s)[i] == s[i - 1] && ([x] + s)[j] == s[j - 1];
        }
      }
    }
  }

  lemma InsertLater(x: string, s: seq<string>, rest: seq<string>)
    requires |s| > 0 && !LexLe(x, s[0])
    requires multiset(rest) == multiset(s[1..]) + multiset{x}
    requires SortedNames(s[1..]) ==> SortedNames(rest)
    ensures multiset([s[0]] + rest) == multiset(s) + multiset{x}
    ensures SortedNames(s) ==> SortedNames([s[0]] + rest)
  {
    assert s == [s[0]] + s[1..];
    if SortedNames(s) {
      LexLeTotal(x, s[0]);
      SortedTail(s);
      forall k | 0 <= k < |rest| ensures LexLe(s[0], rest[k]) {
        HeadBelow(x, s, rest, k);
      }
      SortedCons(s[0], rest);
    }
  }

  lemma SortedTail(s: seq<string>)
    requires |s| > 0 && SortedNames(s)
    ensures SortedNames(s[1..])
  {
    forall i, j | 0 <= i < j < |s| - 1 ensures LexLe(s[1..][i], s[1..][j]) {
      assert s[1..][i] == s[i + 1] && s[1..][j] == s[j + 1];
    }
  }

  lemma SortedCons(y: string, rest: seq<string>)
    requires SortedNames(rest) && forall k :: 0 <= k < |rest| ==> LexLe(y, rest[k])
    ensures SortedNames([y] + rest)
  {
    var r := [y] + rest;
    forall i, j | 0 <= i < j < |r| ensures LexLe(r[i], r[j]) {
      assert r[j] == rest[j - 1];
      if i > 0 {
        assert r[i] == rest[i - 1];
      }
    }
  }

  lemma HeadBelow(x: string, s: seq<string>, rest: seq<string>, k: nat)
    requires |s| > 0 && SortedNames(s) && LexLe(s[0], x)
    requires multiset(rest) == multiset(s[1..]) + multiset{x}
    requires k < |rest|
    ensures LexLe(s[0], rest[k])
  {
    assert rest[k] in multiset(rest);
    if rest[k] != x {
      assert rest[k] in multiset(s[1..]);
      var m :| 0 <= m < |s[1..]| && s[1..][m] == rest[k];
      assert s[m + 1] == rest[k];
    }
  }

  /** Python `sorted` on a list of names. */
  function Sorted(s: seq<string>): (r: seq<string>)
    ensures multiset(r) == multiset(s) && |r| == |s|
    ensures SortedNames(r)
  {
    if |s| == 0 then []
    else
      assert s == [s[0]] + s[1..];
      Insert(s[0], Sorted(s[1..]))
  }

  /** The ids of a list of entries. */
  function Ids(config: seq<Entry>): (ids: seq<string>)
    ensures |ids| == |config| && forall i :: 0 <= i < |config| ==> ids[i] == config[i].id
  {
    seq(|config|, i requires 0 <= i < |config| => config[i].id)
  }

  /** `generate_demos_config`: one entry per scanned demo, in ascending name
      order (writing config.json is not modelled). */
  method GenerateDemosConfig(target: Option<seq<DirEntry>>) returns (config: seq<Entry>)
    ensures |config| == |ScanExistingDemos(target)|
    ensures forall i :: 0 <= i < |config| ==> config[i] == GenerateExampleEntry(Sorted(ScanExistingDemos(target))[i])
    ensures forall i, j :: 0 <= i < j < |config| ==> LexLe(config[i].id, config[j].id)
    ensures multiset(Ids(config)) == multiset(ScanExistingDemos(target))
  {
    var demos := ScanExistingDemos(target);
    var names := Sorted(demos);
    config := EntriesFor(names);
    assert Ids(config) == names;
  }

  /** The loop of `generate_demos_config` over the sorted names. */
  method EntriesFor(names: seq<string>) returns (config: seq<Entry>)
    ensures |config| == |names|
    ensures forall i :: 0 <= i < |names| ==> config[i] == GenerateExampleEntry(names[i])
  {
    config := [];
    for i := 0 to |names|
      invariant |config| == i
      invariant forall k :: 0 <= k < i ==> config[k] == GenerateExampleEntry(names[k])
    {
      config := config + [GenerateExampleEntry(names[i])];
    }
  }

  /** The rename rule of the copy loop: `main.js` becomes `index.js`. */
  function TargetFileName(name: string): (r: string)
    ensures name == "main.js" ==> r == "index.js"
    ensures name != "main.js" ==> r == name
  {
    if name == "main.js" then "index.js" else name
  }

  /** The only two source files that land on the same target are `main.js` and `index.js`. */
  lemma RenameCollisions(a: string, b: string)
    requires a != b && TargetFileName(a) == TargetFileName(b)
    ensures (a == "main.js" && b == "index.js") || (a == "index.js" && b == "main.js")
  {
  }

  /** The target names of the copy loop over the source files, in order. */
  method CopyTargets(srcFiles: seq<string>) returns (targets: seq<string>)
    ensures |targets| == |srcFiles|
    ensures forall i :: 0 <= i < |srcFiles| ==> targets[i] == TargetFileName(srcFiles[i])
    ensures "main.js" !in targets
  {
    targets := [];
    for i := 0 to |srcFiles|
      invariant |targets| == i
      invariant forall k :: 0 <= k < i ==> targets[k] == TargetFileName(srcFiles[k])
    {
      targets := targets + [TargetFileName(srcFiles[i])];
    }
  }

  /** Python truthiness of what `migrate_demo` returned: a name, not None and not empty. */
  predicate Truthy(result: Option<string>)
  {
    result.Some? && result.value != ""
  }

  /** The names `main` records, in order: each result that is a nonempty name. */
  function MigratedNames(results: seq<Option<string>>): seq<string>
  {
    if |results| == 0 then []
    else
      var last := results[|results| - 1];
      MigratedNames(results[..|results| - 1]) + (if Truthy(last) then [last.value] else [])
  }

  /** `main`'s loop: record each demo whose migration returned a name. */
  method CollectMigrated(results: seq<Option<string>>) returns (migrated: seq<string>)
    ensures migrated == MigratedNames(results)
  {
    migrated := [];
    for i := 0 to |results|
      invariant migrated == MigratedNames(results[..i])
    {
      assert results[..i + 1][..i] == results[..i];
      if Truthy(results[i]) {
        migrated := migrated + [results[i].value];
      }
    }
    assert results[..|results|] == results;
  }

  /** A name is recorded iff some migration returned it and it is not empty. */
  lemma {:induction false} MigratedNamesMembers(results: seq<Option<string>>)
    ensures |MigratedNames(results)| <= |results|
    ensures forall n :: n in MigratedNames(results) <==> Some(n) in results && n != ""
  {
    if |results| > 0 {
      var init := results[..|results| - 1];
      MigratedNamesMembers(init);
      assert results == init + [results[|results| - 1]];
    }
  }

  /** The recorded names keep the order of the demo directories: the names of
      two consecutive runs of results follow each other. */
  lemma {:induction false} MigratedNamesAppend(a: seq<Option<string>>, b: seq<Option<string>>)
    ensures MigratedNames(a + b) == MigratedNames(a) + MigratedNames(b)
  {
    if |b| > 0 {
      var init := b[..|b| - 1];
      assert (a + b)[..|a + b| - 1] == a + init;
      MigratedNamesAppend(a, init);
      Text.ConcatAssoc(MigratedNames(a), MigratedNames(init),
        if Truthy(b[|b| - 1]) then [b[|b| - 1].value] else []);
    } else {
      assert a + b == a;
    }
  }
}
