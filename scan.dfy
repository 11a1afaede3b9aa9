/** The directory scan (app/directory.go:124-210): `CountFilesInDir` and
    `ProcessDir`, each a loop over a listing, and `Scan`, the function that
    says what `ProcessDir` builds. The listing (`ioutil.ReadDir`), the MIME
    resolver (`mime.TypeByExtension`) and the size formatter
    (`humanize.Bytes`) are inputs. */
module Scanner {
  import opened Types
  import opened FilePath

  /** One listing entry (`os.FileInfo`): the three fields the scan reads. */
  datatype Entry = Entry(name: string, isDir: bool, size: nat)

  /** `File` (app/directory.go:46-53); `typ` is the `*Type` pointer, `None` for nil. */
  datatype File = File(
    name: string,
    typ: Option<Type>,
    category: Category,
    ext: string,
    isDir: bool,
    size: string)

  /** A value of the result map: `[]*File` for the `Directory` key, and
      `map[string][]*File` keyed by type label for every other key. */
  datatype Bucket = DirList(files: seq<File>) | Typed(groups: map<string, seq<File>>)

  /** `map[Category]interface{}`, the result of `ProcessDir`. */
  type Grouped = map<Category, Bucket>

  /** The error of `ioutil.ReadDir`, handed back unchanged. */
  type IoError = string

  datatype Result<T> = Ok(value: T) | Err(error: IoError)

  /** The number of values of a `uint64`. */
  const Word: nat := 0x1_0000_0000_0000_0000

  /** `strings.HasPrefix(name, ".")`. */
  predicate StartsWithDot(name: string)
  {
    |name| > 0 && name[0] == '.'
  }

  /** The hidden test of app/directory.go:132 and 151, on the cleaned name. */
  predicate Hidden(e: Entry)
  {
    StartsWithDot(CleanName(e.name))
  }

  predicate VisibleDir(e: Entry)
  {
    !Hidden(e) && e.isDir
  }

  predicate VisibleFile(e: Entry)
  {
    !Hidden(e) && !e.isDir
  }

  /** Taking all of a sequence gives the sequence. */
  lemma TakeAll<T>(s: seq<T>)
    ensures s[..|s|] == s
  {
  }

  /** The prefix of length `i` of the prefix of length `i + 1`. */
  lemma TakePrefix<T>(s: seq<T>, i: nat)
    requires i < |s|
    ensures s[..i + 1][..i] == s[..i]
  {
  }

  /** The number of entries that are not hidden, directories and files alike. */
  function VisibleCount(es: seq<Entry>): (n: nat)
    ensures n <= |es|
    decreases |es|
  {
    if es == [] then 0
    else
      var init := es[..|es| - 1];
      assert forall i :: 0 <= i < |init| ==> init[i] == es[i];
      VisibleCount(init) + (if Hidden(es[|es| - 1]) then 0 else 1)
  }

  /** `CountFilesInDir` (app/directory.go:124-137): the count of visible entries,
      in a `uint64`. It takes no resolver, so it never classifies anything. */
  method CountFilesInDir(listing: Result<seq<Entry>>) returns (r: Result<nat>)
    ensures listing.Err? ==> r == Err(listing.error)
    ensures listing.Ok? ==> r == Ok(VisibleCount(listing.value) % Word)
  {
    if listing.Err? {
      return Err(listing.error);
    }
    var files := listing.value;
    var count := 0;
    for i := 0 to |files|
      invariant count == VisibleCount(files[..i]) % Word
    {
      CountStep(files, i);
      var cleanedName := CleanName(files[i].name);
      assert StartsWithDot(cleanedName) == Hidden(files[i]);
      if !StartsWithDot(cleanedName) {
        count := Increment(count);
      }
    }
    TakeAll(files);
    return Ok(count);
  }

  /** One iteration of the counting loop: the wrapped count of the longer
      prefix is the wrapped count of the shorter one, incremented for a
      visible entry. */
  lemma CountStep(es: seq<Entry>, i: nat)
    requires i < |es|
    ensures VisibleCount(es[..i + 1]) % Word ==
      if Hidden(es[i]) then VisibleCount(es[..i]) % Word
      else Increment(VisibleCount(es[..i]) % Word)
  {
    TakePrefix(es, i);
    IncrementWraps(VisibleCount(es[..i]));
  }

  /** `count++` on a `uint64`. */
  function Increment(c: nat): (r: nat)
    requires c < Word
    ensures r < Word
    ensures r == (c + 1) % Word
  {
    if c == Word - 1 then 0 else c + 1
  }

  /** Incrementing a wrapped count wraps the incremented count. */
  lemma IncrementWraps(a: nat)
    ensures Increment(a % Word) == (a + 1) % Word
  {
    assert a == (a / Word) * Word + a % Word;
    if a % Word == Word - 1 {
      assert a + 1 == (a / Word + 1) * Word;
    } else {
      assert a + 1 == (a / Word) * Word + (a % Word + 1);
    }
  }

  /** The resolver answers something `getKnownMime` can split for this entry. */
  predicate Classifiable(e: Entry, resolve: string -> string)
  {
    Resolvable(resolve(Ext(CleanName(e.name))))
  }

  /** `getKnownType(cleanedName)` (app/directory.go:166). */
  function Classify(e: Entry, resolve: string -> string): Type
    requires Classifiable(e, resolve)
  {
    GetKnownType(CleanName(e.name), resolve)
  }

  /** A visible file that would be filed under the `Directory` key. */
  predicate DirTyped(e: Entry, resolve: string -> string)
  {
    VisibleFile(e) && Classifiable(e, resolve)
    && Classify(e, resolve).cat == Dir && Classify(e, resolve).kind != ""
  }

  predicate AllClassifiable(es: seq<Entry>, resolve: string -> string)
  {
    forall i :: 0 <= i < |es| && VisibleFile(es[i]) ==> Classifiable(es[i], resolve)
  }

  predicate HasVisibleDir(es: seq<Entry>)
  {
    exists i :: 0 <= i < |es| && VisibleDir(es[i])
  }

  predicate HasDirTyped(es: seq<Entry>, resolve: string -> string)
  {
    exists i :: 0 <= i < |es| && DirTyped(es[i], resolve)
  }

  /** The listings on which `ProcessDir` does not panic. `getKnownMime` indexes
      `s[1]`, so every resolved MIME type needs a `/`; and the type assertions
      of app/directory.go:164 and 180 fail when the `Directory` key is wanted
      both as a list (for a directory) and as a label map (for a file whose
      category is `Directory`, which a MIME top-level type `directory` gives). */
  predicate NoPanic(es: seq<Entry>, resolve: string -> string)
  {
    AllClassifiable(es, resolve) && !(HasVisibleDir(es) && HasDirTyped(es, resolve))
  }

  /** A visible directory of a prefix is one of the whole listing. */
  lemma PrefixVisibleDir(es: seq<Entry>, n: nat)
    requires n <= |es|
    ensures HasVisibleDir(es[..n]) ==> HasVisibleDir(es)
  {
    if HasVisibleDir(es[..n]) {
      var i :| 0 <= i < n && VisibleDir(es[..n][i]);
      assert VisibleDir(es[i]);
    }
  }

  lemma PrefixFacts(es: seq<Entry>, n: nat, resolve: string -> string)
    requires n <= |es|
    ensures AllClassifiable(es, resolve) ==> AllClassifiable(es[..n], resolve)
    ensures HasVisibleDir(es[..n]) ==> HasVisibleDir(es)
    ensures HasDirTyped(es[..n], resolve) ==> HasDirTyped(es, resolve)
  {
    assert forall i :: 0 <= i < n ==> es[..n][i] == es[i];
    PrefixVisibleDir(es, n);
    if HasDirTyped(es[..n], resolve) {
      var i :| 0 <= i < n && DirTyped(es[..n][i], resolve);
      assert DirTyped(es[i], resolve);
    }
  }

  /** The record of a directory entry (app/directory.go:158-163). */
  function DirFile(e: Entry): File
  {
    File(e.name, None, Dir, "", true, "")
  }

  /** The record of a file entry classified as `t` (app/directory.go:167-173). */
  function FileOf(e: Entry, t: Type, humanize: nat -> string): File
  {
    File(e.name, Some(t), t.cat, Ext(e.name), false, humanize(e.size))
  }

  /** The directory list, or nothing when there is none. */
  function DirListOf(g: Grouped): seq<File>
  {
    if Dir in g && g[Dir].DirList? then g[Dir].files else []
  }

  /** The label map of category `c`, or an empty one. */
  function GroupsOf(g: Grouped, c: Category): map<string, seq<File>>
  {
    if c in g && g[c].Typed? then g[c].groups else map[]
  }

  /** The list under `c` and label `k`, or nothing. */
  function GroupOf(g: Grouped, c: Category, k: string): seq<File>
  {
    var groups := GroupsOf(g, c);
    if k in groups then groups[k] else []
  }

  /** Appending a directory record (app/directory.go:155-157, 164). */
  function AppendDir(g: Grouped, f: File): Grouped
  {
    g[Dir := DirList(DirListOf(g) + [f])]
  }

  /** Appending a file record under category `c` and label `k`
      (app/directory.go:175-185). */
  function AppendTyped(g: Grouped, c: Category, k: string, f: File): Grouped
  {
    g[c := Typed(GroupsOf(g, c)[k := GroupOf(g, c, k) + [f]])]
  }

  /** One iteration of the loop of app/directory.go:145-189. */
  function AddEntry(g: Grouped, e: Entry, resolve: string -> string, humanize: nat -> string): Grouped
    requires VisibleFile(e) ==> Classifiable(e, resolve)
  {
    if Hidden(e) then g
    else if e.isDir then AppendDir(g, DirFile(e))
    else
      var t := Classify(e, resolve);
      if t.kind == "" then g else AppendTyped(g, t.cat, t.kind, FileOf(e, t, humanize))
  }

  /** The shape of a grouped result: only the `Directory` key may hold a
      list, and no bucket, label or list is empty (each is created on first
      use, right before something is appended to it). */
  ghost predicate WellFormed(g: Grouped)
  {
    && (forall c :: c in g && g[c].DirList? ==> c == Dir && g[c].files != [])
    && (forall c :: c in g && g[c].Typed? ==> g[c].groups != map[])
    && (forall c, k :: c in g && g[c].Typed? && k in g[c].groups ==>
          k != "" && g[c].groups[k] != [])
  }

  lemma AppendDirShape(g: Grouped, f: File)
    requires WellFormed(g)
    ensures WellFormed(AppendDir(g, f))
    ensures AppendDir(g, f)[Dir].DirList?
  {
    var g' := AppendDir(g, f);
    forall c, k | c in g' && g'[c].Typed? && k in g'[c].groups
      ensures k != "" && g'[c].groups[k] != []
    {
      assert c != Dir && g'[c] == g[c];
    }
  }

  lemma AppendTypedShape(g: Grouped, c: Category, k: string, f: File)
    requires WellFormed(g) && k != ""
    ensures WellFormed(AppendTyped(g, c, k, f))
    ensures AppendTyped(g, c, k, f)[c].Typed?
  {
    var g' := AppendTyped(g, c, k, f);
    forall c', k' | c' in g' && g'[c'].Typed? && k' in g'[c'].groups
      ensures k' != "" && g'[c'].groups[k'] != []
    {
      if c' != c {
        assert g'[c'] == g[c'];
      } else if k' != k {
        assert g'[c].groups[k'] == GroupsOf(g, c)[k'];
      }
    }
  }

  /** One step keeps the shape, and the `Directory` key changes kind only
      for an entry of that kind. */
  lemma AddEntryShape(g: Grouped, e: Entry, resolve: string -> string, humanize: nat -> string)
    requires WellFormed(g)
    requires VisibleFile(e) ==> Classifiable(e, resolve)
    ensures WellFormed(AddEntry(g, e, resolve, humanize))
    ensures var g' := AddEntry(g, e, resolve, humanize);
      Dir in g' && g'[Dir].DirList? ==> (Dir in g && g[Dir].DirList?) || VisibleDir(e)
    ensures var g' := AddEntry(g, e, resolve, humanize);
      Dir in g' && g'[Dir].Typed? ==> (Dir in g && g[Dir].Typed?) || DirTyped(e, resolve)
  {
    if VisibleDir(e) {
      AppendDirShape(g, DirFile(e));
    } else if VisibleFile(e) {
      var t := Classify(e, resolve);
      if t.kind != "" {
        AppendTypedShape(g, t.cat, t.kind, FileOf(e, t, humanize));
      }
    }
  }

  /** What `ProcessDir` builds from a listing: every entry added in turn.
      The `Directory` key holds a list only after a visible directory, and a
      label map only after a file classified under `Directory`. */
  function Scan(es: seq<Entry>, resolve: string -> string, humanize: nat -> string): (g: Grouped)
    requires AllClassifiable(es, resolve)
    ensures WellFormed(g)
    ensures Dir in g && g[Dir].DirList? ==> HasVisibleDir(es)
    ensures Dir in g && g[Dir].Typed? ==> HasDirTyped(es, resolve)
    decreases |es|
  {
    if es == [] then map[]
    else
      var init, e := es[..|es| - 1], es[|es| - 1];
      PrefixFacts(es, |es| - 1, resolve);
      assert DirTyped(e, resolve) ==> HasDirTyped(es, resolve);
      assert VisibleDir(e) ==> HasVisibleDir(es);
      var g := Scan(init, resolve, humanize);
      AddEntryShape(g, e, resolve, humanize);
      AddEntry(g, e, resolve, humanize)
  }

  /** What iteration `i` of `ProcessDir` finds: the result so far has the
      bucket kind the next entry needs, and adding that entry extends the
      scan by one. */
  lemma ScanStep(es: seq<Entry>, i: nat, resolve: string -> string, humanize: nat -> string)
    requires NoPanic(es, resolve) && i < |es|
    ensures AllClassifiable(es[..i], resolve) && AllClassifiable(es[..i + 1], resolve)
    ensures VisibleFile(es[i]) ==> Classifiable(es[i], resolve)
    ensures Scan(es[..i + 1], resolve, humanize) == AddEntry(Scan(es[..i], resolve, humanize), es[i], resolve, humanize)
    ensures var g := Scan(es[..i], resolve, humanize);
      VisibleDir(es[i]) ==> Dir !in g || g[Dir].DirList?
    ensures var g := Scan(es[..i], resolve, humanize);
      VisibleFile(es[i]) && Classify(es[i], resolve).kind != "" ==>
        Classify(es[i], resolve).cat !in g || g[Classify(es[i], resolve).cat].Typed?
  {
    PrefixFacts(es, i + 1, resolve);
    PrefixFacts(es, i, resolve);
    TakePrefix(es, i);
    assert VisibleDir(es[i]) ==> HasVisibleDir(es);
    assert DirTyped(es[i], resolve) ==> HasDirTyped(es, resolve);
  }

  /** The directory branch of the loop (app/directory.go:155-164): create the
      list on first use, then append. */
  method AppendDirInPlace(tmp: Grouped, f: File) returns (tmp': Grouped)
    requires Dir !in tmp || tmp[Dir].DirList?
    ensures tmp' == AppendDir(tmp, f)
  {
    tmp' := tmp;
    if Dir !in tmp' {
      tmp' := tmp'[Dir := DirList([])];
    }
    tmp' := tmp'[Dir := DirList(tmp'[Dir].files + [f])];
  }

  /** The file branch of the loop (app/directory.go:175-185): create the
      category's label map and the label's list on first use, then append. */
  method AppendTypedInPlace(tmp: Grouped, t: Type, f: File) returns (tmp': Grouped)
    requires t.cat !in tmp || tmp[t.cat].Typed?
    ensures tmp' == AppendTyped(tmp, t.cat, t.kind, f)
  {
    tmp' := tmp;
    if t.cat !in tmp' {
      tmp' := tmp'[t.cat := Typed(map[])];
    }
    var subCat := tmp'[t.cat].groups;
    assert subCat == GroupsOf(tmp, t.cat);
    if t.kind !in subCat {
      subCat := subCat[t.kind := []];
    }
    assert subCat[t.kind] == GroupOf(tmp, t.cat, t.kind);
    subCat := subCat[t.kind := subCat[t.kind] + [f]];
    assert subCat == GroupsOf(tmp, t.cat)[t.kind := GroupOf(tmp, t.cat, t.kind) + [f]];
    tmp' := tmp'[t.cat := Typed(subCat)];
  }

  /** `ProcessDir` (app/directory.go:139-210): the listing error is returned
      before anything is classified; otherwise the loop builds `Scan`. */
  method ProcessDir(listing: Result<seq<Entry>>, resolve: string -> string, humanize: nat -> string)
    returns (r: Result<Grouped>)
    requires listing.Ok? ==> NoPanic(listing.value, resolve)
    ensures listing.Err? ==> r == Err(listing.error)
    ensures listing.Ok? ==> r == Ok(Scan(listing.value, resolve, humanize))
  {
    if listing.Err? {
      return Err(listing.error);
    }
    var files := listing.value;
    var tmp: Grouped := map[];
    for i := 0 to |files|
      invariant tmp == Scan(files[..i], resolve, humanize)
    {
      var file := files[i];
      ScanStep(files, i, resolve, humanize);
      var cleanedName := CleanName(file.name);
      assert StartsWithDot(cleanedName) == Hidden(file);
      if StartsWithDot(cleanedName) {
        // Skipped (logged by the source).
      } else if file.isDir {
        var f := File(file.name, None, Dir, "", true, "");
        tmp := AppendDirInPlace(tmp, f);
      } else {
        var t := GetKnownType(cleanedName, resolve);
        var f := File(file.name, Some(t), t.cat, Ext(file.name), false, humanize(file.size));
        if t.kind != "" {
          tmp := AppendTypedInPlace(tmp, t, f);
        }
      }
    }
    TakeAll(files);
    return Ok(tmp);
  }
}
