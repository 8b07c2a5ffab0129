/**
 * The resource side of the utility: `detect_resources`, which scans a
 * resources directory, and the `resource-usage` comparison of the resources
 * a configuration starts against what the scan found.
 *
 * A directory is a tree of `Node`s. A directory entry that is itself a
 * directory is registered under its name and path, unless its name is
 * bracketed (`[name]`): then it is a group, never registered itself, whose
 * contents are scanned the same way and merged in. Entries that are not
 * directories are skipped. The order in which the tree lists entries stands
 * for `read_dir`'s order, which the program leaves unspecified, so only
 * order-independent facts are stated about which path a name maps to.
 */
module Resources {

  datatype Node = File(name: string) | Dir(name: string, entries: seq<Node>)

  /** `name.starts_with("[") && name.ends_with("]")` */
  predicate IsBracketed(name: string)
  {
    |name| > 0 && name[0] == '[' && name[|name| - 1] == ']'
  }

  /** The path of the entry `name` in the directory at `dir`. */
  function EntryPath(dir: string, name: string): string
  {
    dir + "/" + name
  }

  /** The (name, path) pairs the scan may register from the first `k`
      entries of the directory `dir`, which sits at `path`. */
  function Candidates(path: string, dir: Node, k: nat): set<(string, string)>
    requires dir.Dir? && k <= |dir.entries|
    decreases dir, k
  {
    if k == 0 then {}
    else
      var e := dir.entries[k - 1];
      Candidates(path, dir, k - 1) +
        match e
        case File(_) => {}
        case Dir(n, _) =>
          if IsBracketed(n) then Candidates(EntryPath(path, n), e, |e.entries|)
          else {(n, EntryPath(path, n))}
  }

  function NamesOf(pairs: set<(string, string)>): set<string>
  {
    set p | p in pairs :: p.0
  }

  function AllCandidates(path: string, dir: Node): set<(string, string)>
    requires dir.Dir?
  {
    Candidates(path, dir, |dir.entries|)
  }

  /** `detect_resources`: the map holds exactly the names the scan can
      register, each with the path of one directory of that name. */
  method DetectResources(path: string, dir: Node) returns (found: map<string, string>)
    requires dir.Dir?
    decreases dir
    ensures found.Keys == NamesOf(AllCandidates(path, dir))
    ensures forall name :: name in found ==> (name, found[name]) in AllCandidates(path, dir)
  {
    found := map[];
    for i := 0 to |dir.entries|
      invariant found.Keys == NamesOf(Candidates(path, dir, i))
      invariant forall name :: name in found ==> (name, found[name]) in Candidates(path, dir, i)
    {
      var entry := dir.entries[i];
      if entry.Dir? {
        var name := entry.name;
        var filePath := EntryPath(path, name);
        if IsBracketed(name) {
          var sub := DetectResources(filePath, entry);
          ghost var before := found;
          var keys := sub.Keys;
          while keys != {}
            invariant keys <= sub.Keys
            invariant found.Keys == before.Keys + (sub.Keys - keys)
            invariant forall name :: name in found ==>
                        (name in sub && name !in keys && found[name] == sub[name]) || (name in before && found[name] == before[name])
          {
            var key :| key in keys;
            found := found[key := sub[key]];
            keys := keys - {key};
          }
          assert Candidates(path, dir, i + 1) == Candidates(path, dir, i) + AllCandidates(filePath, entry);
          NamesOfUnion(Candidates(path, dir, i), AllCandidates(filePath, entry));
        } else {
          found := found[name := filePath];
          assert Candidates(path, dir, i + 1) == Candidates(path, dir, i) + {(name, filePath)};
          NamesOfUnion(Candidates(path, dir, i), {(name, filePath)});
        }
      } else {
        assert Candidates(path, dir, i + 1) == Candidates(path, dir, i);
      }
    }
  }

  lemma {:induction false} NamesOfUnion(a: set<(string, string)>, b: set<(string, string)>)
    ensures NamesOf(a + b) == NamesOf(a) + NamesOf(b)
  {
    forall n | n in NamesOf(a + b) ensures n in NamesOf(a) + NamesOf(b) {
      var p :| p in a + b && p.0 == n;
    }
    forall n | n in NamesOf(a) + NamesOf(b) ensures n in NamesOf(a + b) {
      if n in NamesOf(a) {
        var p :| p in a && p.0 == n;
      } else {
        var p :| p in b && p.0 == n;
      }
    }
  }

  /** The names of the directories the scan visits in the first `k` entries
      of `dir`: every directory entry, and inside bracketed groups, their
      directory entries in turn. Files and the contents of plain directories
      do not appear. */
  function DirNames(dir: Node, k: nat): set<string>
    requires dir.Dir? && k <= |dir.entries|
    decreases dir, k
  {
    if k == 0 then {}
    else
      var e := dir.entries[k - 1];
      DirNames(dir, k - 1) +
        match e
        case File(_) => {}
        case Dir(n, _) => {n} + (if IsBracketed(n) then DirNames(e, |e.entries|) else {})
  }

  /** Only directories are registered, never a bracketed one, and each under
      its own path: a registered name is that of a directory in the tree,
      is not bracketed, and its path ends in `/name`. */
  lemma {:induction false} OnlyPlainDirectoriesRegistered(path: string, dir: Node, k: nat)
    requires dir.Dir? && k <= |dir.entries|
    ensures forall p :: p in Candidates(path, dir, k) ==>
              p.0 in DirNames(dir, k) && !IsBracketed(p.0) && exists q :: p.1 == EntryPath(q, p.0)
    decreases dir, k
  {
    if k > 0 {
      OnlyPlainDirectoriesRegistered(path, dir, k - 1);
      var e := dir.entries[k - 1];
      if e.Dir? && IsBracketed(e.name) {
        OnlyPlainDirectoriesRegistered(EntryPath(path, e.name), e, |e.entries|);
      }
    }
  }

  /** A directory whose name is not bracketed is registered under its name
      and path; whatever it contains plays no part. */
  lemma {:induction false} PlainDirectoryRegisteredAsIs(path: string, dir: Node, i: nat, k: nat, contents: seq<Node>)
    requires dir.Dir? && i < k <= |dir.entries|
    requires dir.entries[i].Dir? && !IsBracketed(dir.entries[i].name)
    ensures (dir.entries[i].name, EntryPath(path, dir.entries[i].name)) in Candidates(path, dir, k)
    ensures var other := dir.(entries := dir.entries[i := Dir(dir.entries[i].name, contents)]);
            Candidates(path, other, k) == Candidates(path, dir, k)
    decreases k
  {
    var other := dir.(entries := dir.entries[i := Dir(dir.entries[i].name, contents)]);
    if k - 1 > i {
      PlainDirectoryRegisteredAsIs(path, dir, i, k - 1, contents);
      assert other.entries[k - 1] == dir.entries[k - 1];
    } else {
      SameCandidatesBefore(path, dir, other, i);
    }
  }

  /** Files play no part: renaming a file entry leaves what the scan
      registers unchanged. */
  lemma {:induction false} FileEntriesIgnored(path: string, dir: Node, i: nat, k: nat, name: string)
    requires dir.Dir? && i < k <= |dir.entries|
    requires dir.entries[i].File?
    ensures var other := dir.(entries := dir.entries[i := File(name)]);
            Candidates(path, other, k) == Candidates(path, dir, k)
    decreases k
  {
    var other := dir.(entries := dir.entries[i := File(name)]);
    if k - 1 > i {
      FileEntriesIgnored(path, dir, i, k - 1, name);
      assert other.entries[k - 1] == dir.entries[k - 1];
    } else {
      SameCandidatesBefore(path, dir, other, i);
    }
  }

  lemma {:induction false} SameCandidatesBefore(path: string, a: Node, b: Node, k: nat)
    requires a.Dir? && b.Dir? && k <= |a.entries| && k <= |b.entries|
    requires a.entries[..k] == b.entries[..k]
    ensures Candidates(path, a, k) == Candidates(path, b, k)
    decreases k
  {
    if k > 0 {
      assert a.entries[..k - 1] == b.entries[..k - 1];
      assert a.entries[k - 1] == a.entries[..k][k - 1] == b.entries[k - 1];
      SameCandidatesBefore(path, a, b, k - 1);
    }
  }

  /** Everything a bracketed group registers is registered by its parent. */
  lemma {:induction false} GroupContentsMerged(path: string, dir: Node, i: nat, k: nat)
    requires dir.Dir? && i < k <= |dir.entries|
    requires dir.entries[i].Dir? && IsBracketed(dir.entries[i].name)
    ensures AllCandidates(EntryPath(path, dir.entries[i].name), dir.entries[i]) <= Candidates(path, dir, k)
    decreases k
  {
    if k - 1 > i {
      GroupContentsMerged(path, dir, i, k - 1);
    }
  }

  // ---------------------------------------------------------------------
  // resource-usage

  datatype Report = Found(name: string, path: string) | Missing(name: string)

  /** The outcome of `resource-usage`: one report per declared resource, in
      order, FOUND exactly when the scan has the name and no earlier
      declaration of the same name took it; the extra entries are the
      scanned ones no declaration took. */
  predicate Classified(declared: seq<string>, scanned: map<string, string>,
                       report: seq<Report>, extra: map<string, string>)
  {
    && |report| == |declared|
    && (forall i :: 0 <= i < |declared| ==>
          && report[i].name == declared[i]
          && (report[i].Found? <==> declared[i] in scanned && declared[i] !in declared[..i])
          && (report[i].Found? ==> report[i].path == scanned[declared[i]]))
    && extra == scanned - DeclaredNames(declared, |declared|)
  }

  /** The first `i` declared names, as a set. */
  function DeclaredNames(declared: seq<string>, i: nat): set<string>
    requires i <= |declared|
  {
    set j | 0 <= j < i :: declared[j]
  }

  lemma {:induction false} DeclaredNamesStep(declared: seq<string>, i: nat)
    requires i < |declared|
    ensures DeclaredNames(declared, i + 1) == DeclaredNames(declared, i) + {declared[i]}
    ensures declared[i] in declared[..i] <==> declared[i] in DeclaredNames(declared, i)
  {
    assert declared[i] in declared[..i] ==> declared[i] in DeclaredNames(declared, i);
  }

  /** The loop of `resource-usage`: each declared name is removed from the
      scanned map, FOUND if it was there and MISSING if not; what is left
      is reported as extra. */
  method ClassifyResources(declared: seq<string>, scanned: map<string, string>)
    returns (report: seq<Report>, extra: map<string, string>)
    ensures Classified(declared, scanned, report, extra)
  {
    var resources := scanned;
    report := [];
    for i := 0 to |declared|
      invariant |report| == i
      invariant resources == scanned - DeclaredNames(declared, i)
      invariant forall j :: 0 <= j < i ==>
                  && report[j].name == declared[j]
                  && (report[j].Found? <==> declared[j] in scanned && declared[j] !in declared[..j])
                  && (report[j].Found? ==> report[j].path == scanned[declared[j]])
    {
      var res := declared[i];
      DeclaredNamesStep(declared, i);
      if res in resources {
        report := report + [Found(res, resources[res])];
        resources := resources - {res};
      } else {
        report := report + [Missing(res)];
      }
    }
    extra := resources;
  }

  function FoundNames(report: seq<Report>): set<string>
  {
    set i | 0 <= i < |report| && report[i].Found? :: report[i].name
  }

  /** The FOUND names and the extra names split the scanned names between them. */
  lemma {:induction false} FoundAndExtraPartitionScan(declared: seq<string>, scanned: map<string, string>,
                                   report: seq<Report>, extra: map<string, string>)
    requires Classified(declared, scanned, report, extra)
    ensures FoundNames(report) + extra.Keys == scanned.Keys
    ensures FoundNames(report) !! extra.Keys
  {
    forall n | n in scanned.Keys && n !in extra.Keys ensures n in FoundNames(report) {
      var i :| 0 <= i < |declared| && declared[i] == n;
      var first := FirstIndex(declared, n, i);
      assert declared[first] !in declared[..first];
      assert report[first].Found?;
    }
  }

  function FirstIndex(s: seq<string>, x: string, bound: nat): (k: nat)
    requires bound < |s| && s[bound] == x
    ensures k <= bound && s[k] == x && x !in s[..k]
  {
    if x in s[..bound] then
      var j :| 0 <= j < bound && s[..bound][j] == x;
      FirstIndex(s, x, j)
    else bound
  }

  /** A name declared twice is FOUND at most once: the first lookup took it. */
  lemma {:induction false} RepeatIsMissing(declared: seq<string>, scanned: map<string, string>,
                        report: seq<Report>, extra: map<string, string>, i: nat, j: nat)
    requires Classified(declared, scanned, report, extra)
    requires i < j < |declared| && declared[i] == declared[j]
    ensures report[j].Missing?
  {
    assert declared[..j][i] == declared[j];
  }
}
