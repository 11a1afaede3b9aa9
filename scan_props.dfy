/** What `ProcessDir` promises about its result, stated against reference
    definitions that filter the listing directly: which records land in the
    `Directory` list and in each label list, in which order, which entries
    are dropped, and how the total relates to `CountFilesInDir`. */
module ScanProps {
  import opened Types
  import opened FilePath
  import opened Scanner
  import opened Sums

  /** The record of every visible directory, in listing order. */
  function Dirs(es: seq<Entry>): (r: seq<File>)
    ensures |r| <= |es|
    ensures forall i :: 0 <= i < |r| ==>
      r[i].isDir && r[i].typ == None && r[i].category == Dir && !StartsWithDot(CleanName(r[i].name))
    decreases |es|
  {
    if es == [] then []
    else
      var init, e := es[..|es| - 1], es[|es| - 1];
      Dirs(init) + (if VisibleDir(e) then [DirFile(e)] else [])
  }

  /** The record of every visible file classified as `{c, k}`, in listing order. */
  function Members(es: seq<Entry>, c: Category, k: string, resolve: string -> string, humanize: nat -> string): (r: seq<File>)
    requires AllClassifiable(es, resolve)
    ensures |r| <= |es|
    ensures forall i :: 0 <= i < |r| ==>
      && !r[i].isDir && r[i].typ == Some(Type(c, k)) && r[i].category == c
      && r[i].ext == Ext(r[i].name) && !StartsWithDot(CleanName(r[i].name))
    decreases |es|
  {
    if es == [] then []
    else
      var init, e := es[..|es| - 1], es[|es| - 1];
      PrefixFacts(es, |es| - 1, resolve);
      Members(init, c, k, resolve, humanize)
        + (if VisibleFile(e) && Classify(e, resolve) == Type(c, k) then [FileOf(e, Type(c, k), humanize)] else [])
  }

  /** The number of visible files whose type has an empty label. */
  function Dropped(es: seq<Entry>, resolve: string -> string): (n: nat)
    requires AllClassifiable(es, resolve)
    ensures n <= |es|
    ensures n == 0 <==> forall i :: 0 <= i < |es| && VisibleFile(es[i]) ==> Classify(es[i], resolve).kind != ""
    decreases |es|
  {
    if es == [] then 0
    else
      var init, e := es[..|es| - 1], es[|es| - 1];
      PrefixFacts(es, |es| - 1, resolve);
      assert forall i :: 0 <= i < |init| ==> init[i] == es[i];
      Dropped(init, resolve) + (if VisibleFile(e) && Classify(e, resolve).kind == "" then 1 else 0)
  }

  /** The four cases of one loop iteration. */
  lemma AddEntryCases(g: Grouped, e: Entry, resolve: string -> string, humanize: nat -> string)
    requires VisibleFile(e) ==> Classifiable(e, resolve)
    ensures Hidden(e) ==> AddEntry(g, e, resolve, humanize) == g
    ensures VisibleDir(e) ==> AddEntry(g, e, resolve, humanize) == AppendDir(g, DirFile(e))
    ensures VisibleFile(e) && Classify(e, resolve).kind == "" ==> AddEntry(g, e, resolve, humanize) == g
    ensures VisibleFile(e) && Classify(e, resolve).kind != "" ==>
      var t := Classify(e, resolve);
      AddEntry(g, e, resolve, humanize) == AppendTyped(g, t.cat, t.kind, FileOf(e, t, humanize))
  {
  }

  /** How appending a directory record changes the views. */
  lemma AppendDirViews(g: Grouped, f: File)
    ensures DirListOf(AppendDir(g, f)) == DirListOf(g) + [f]
    ensures forall c, k :: c != Dir ==> GroupOf(AppendDir(g, f), c, k) == GroupOf(g, c, k)
    ensures forall k :: GroupOf(AppendDir(g, f), Dir, k) == []
  {
  }

  /** How appending a file record changes the views. */
  lemma AppendTypedViews(g: Grouped, c0: Category, k0: string, f: File)
    ensures forall c, k ::
      GroupOf(AppendTyped(g, c0, k0, f), c, k) == (if c == c0 && k == k0 then GroupOf(g, c, k) + [f] else GroupOf(g, c, k))
    ensures DirListOf(AppendTyped(g, c0, k0, f)) == if c0 == Dir then [] else DirListOf(g)
  {
  }

  /** Without a visible directory there are no directory records. */
  lemma {:induction false} NoVisibleDirNoDirs(es: seq<Entry>)
    requires !HasVisibleDir(es)
    ensures Dirs(es) == []
    decreases |es|
  {
    if es != [] {
      PrefixVisibleDir(es, |es| - 1);
      NoVisibleDirNoDirs(es[..|es| - 1]);
    }
  }

  /** Without a file classified under `Directory`, no label list of that
      category has members. */
  lemma {:induction false} NoDirTypedNoMembers(es: seq<Entry>, k: string, resolve: string -> string, humanize: nat -> string)
    requires AllClassifiable(es, resolve) && !HasDirTyped(es, resolve) && k != ""
    ensures Members(es, Dir, k, resolve, humanize) == []
    decreases |es|
  {
    if es != [] {
      PrefixFacts(es, |es| - 1, resolve);
      NoDirTypedNoMembers(es[..|es| - 1], k, resolve, humanize);
    }
  }

  /** The scan of `es` holds exactly the reference lists. */
  ghost predicate Agrees(es: seq<Entry>, resolve: string -> string, humanize: nat -> string)
    requires AllClassifiable(es, resolve)
  {
    && DirListOf(Scan(es, resolve, humanize)) == Dirs(es)
    && forall c, k :: k != "" ==>
      GroupOf(Scan(es, resolve, humanize), c, k) == Members(es, c, k, resolve, humanize)
  }

  /** A visible directory at the end of the listing: it joins the
      directory list, and no label list changes. */
  lemma AgreesAfterDir(es: seq<Entry>, resolve: string -> string, humanize: nat -> string)
    requires NoPanic(es, resolve) && es != [] && VisibleDir(es[|es| - 1])
    requires AllClassifiable(es[..|es| - 1], resolve) && Agrees(es[..|es| - 1], resolve, humanize)
    ensures Agrees(es, resolve, humanize)
  {
    var init, e := es[..|es| - 1], es[|es| - 1];
    var g := Scan(init, resolve, humanize);
    ScanLast(es, resolve, humanize);
    AddEntryCases(g, e, resolve, humanize);
    assert HasVisibleDir(es);
    AppendDirViews(g, DirFile(e));
    forall c, k | k != ""
      ensures GroupOf(Scan(es, resolve, humanize), c, k) == Members(es, c, k, resolve, humanize)
    {
      if c == Dir {
        NoDirTypedNoMembers(es, k, resolve, humanize);
      } else {
        assert Members(es, c, k, resolve, humanize) == Members(init, c, k, resolve, humanize);
      }
    }
  }

  /** A visible file whose type has an empty label at the end of the
      listing: nothing changes. */
  lemma AgreesAfterUnlabelled(es: seq<Entry>, resolve: string -> string, humanize: nat -> string)
    requires NoPanic(es, resolve) && es != [] && VisibleFile(es[|es| - 1])
    requires Classify(es[|es| - 1], resolve).kind == ""
    requires AllClassifiable(es[..|es| - 1], resolve) && Agrees(es[..|es| - 1], resolve, humanize)
    ensures Agrees(es, resolve, humanize)
  {
    var init := es[..|es| - 1];
    ScanLast(es, resolve, humanize);
    AddEntryCases(Scan(init, resolve, humanize), es[|es| - 1], resolve, humanize);
    assert Dirs(es) == Dirs(init);
    forall c, k | k != ""
      ensures Members(es, c, k, resolve, humanize) == Members(init, c, k, resolve, humanize)
    {
    }
  }

  /** A visible file with a labelled type at the end of the listing: it
      joins the label list of its own type, and nothing else changes. */
  lemma AgreesAfterLabelled(es: seq<Entry>, resolve: string -> string, humanize: nat -> string)
    requires NoPanic(es, resolve) && es != [] && VisibleFile(es[|es| - 1])
    requires Classify(es[|es| - 1], resolve).kind != ""
    requires AllClassifiable(es[..|es| - 1], resolve) && Agrees(es[..|es| - 1], resolve, humanize)
    ensures Agrees(es, resolve, humanize)
  {
    var init, e := es[..|es| - 1], es[|es| - 1];
    var t := Classify(e, resolve);
    assert Dirs(es) == Dirs(init);
    var g := Scan(init, resolve, humanize);
    ScanLast(es, resolve, humanize);
    AddEntryCases(g, e, resolve, humanize);
    AppendTypedViews(g, t.cat, t.kind, FileOf(e, t, humanize));
    if t.cat == Dir {
      assert DirTyped(e, resolve);
      NoVisibleDirNoDirs(es);
    }
    forall c, k | k != ""
      ensures GroupOf(Scan(es, resolve, humanize), c, k) == Members(es, c, k, resolve, humanize)
    {
      LabelledStepAt(es, c, k, resolve, humanize);
    }
  }

  /** The scan of a non-empty listing adds its last entry to the scan of
      the rest. */
  lemma ScanLast(es: seq<Entry>, resolve: string -> string, humanize: nat -> string)
    requires NoPanic(es, resolve) && es != []
    ensures AllClassifiable(es[..|es| - 1], resolve)
    ensures Scan(es, resolve, humanize) == AddEntry(Scan(es[..|es| - 1], resolve, humanize), es[|es| - 1], resolve, humanize)
  {
    var i := |es| - 1;
    ScanStep(es, i, resolve, humanize);
    TakeAll(es);
  }

  /** The list under one label after a labelled file is scanned. */
  lemma LabelledStepAt(es: seq<Entry>, c: Category, k: string, resolve: string -> string, humanize: nat -> string)
    requires NoPanic(es, resolve) && es != [] && VisibleFile(es[|es| - 1])
    requires Classify(es[|es| - 1], resolve).kind != ""
    requires AllClassifiable(es[..|es| - 1], resolve)
    requires GroupOf(Scan(es[..|es| - 1], resolve, humanize), c, k) == Members(es[..|es| - 1], c, k, resolve, humanize)
    ensures GroupOf(Scan(es, resolve, humanize), c, k) == Members(es, c, k, resolve, humanize)
  {
    var init, e := es[..|es| - 1], es[|es| - 1];
    var g := Scan(init, resolve, humanize);
    var t := Classify(e, resolve);
    var f := FileOf(e, t, humanize);
    ScanLast(es, resolve, humanize);
    AddEntryCases(g, e, resolve, humanize);
    AppendTypedViews(g, t.cat, t.kind, f);
    assert Members(es, c, k, resolve, humanize) == Members(init, c, k, resolve, humanize)
      + (if t == Type(c, k) then [f] else []);
  }

  /** The scan builds exactly the reference lists: the `Directory` list holds
      the visible directories and the list under `{c, k}` the visible files
      classified as `{c, k}`, each once and in listing order. */
  lemma {:induction false} ScanAgreesWithReference(es: seq<Entry>, resolve: string -> string, humanize: nat -> string)
    requires NoPanic(es, resolve)
    ensures DirListOf(Scan(es, resolve, humanize)) == Dirs(es)
    ensures forall c, k :: k != "" ==>
      GroupOf(Scan(es, resolve, humanize), c, k) == Members(es, c, k, resolve, humanize)
    decreases |es|
  {
    if es != [] {
      var init, e := es[..|es| - 1], es[|es| - 1];
      PrefixFacts(es, |es| - 1, resolve);
      ScanAgreesWithReference(init, resolve, humanize);
      if Hidden(e) {
        ScanLast(es, resolve, humanize);
        AddEntryCases(Scan(init, resolve, humanize), e, resolve, humanize);
        assert Dirs(es) == Dirs(init);
        forall c, k | k != ""
          ensures Members(es, c, k, resolve, humanize) == Members(init, c, k, resolve, humanize)
        {
        }
      } else if e.isDir {
        AgreesAfterDir(es, resolve, humanize);
      } else if Classify(e, resolve).kind == "" {
        AgreesAfterUnlabelled(es, resolve, humanize);
      } else {
        AgreesAfterLabelled(es, resolve, humanize);
      }
    }
  }

  /** No label is empty: a file whose type has an empty label is in no list. */
  lemma EmptyLabelNeverListed(es: seq<Entry>, c: Category, resolve: string -> string, humanize: nat -> string)
    requires AllClassifiable(es, resolve)
    ensures GroupOf(Scan(es, resolve, humanize), c, "") == []
  {
    var g := Scan(es, resolve, humanize);
    assert WellFormed(g);
  }

  /** No entry whose cleaned name starts with `.` appears in any list, and
      every record sits under its own category and label. */
  lemma HiddenNeverListed(es: seq<Entry>, resolve: string -> string, humanize: nat -> string)
    requires NoPanic(es, resolve)
    ensures forall i :: 0 <= i < |DirListOf(Scan(es, resolve, humanize))| ==>
      var f := DirListOf(Scan(es, resolve, humanize))[i];
      !StartsWithDot(CleanName(f.name)) && f.isDir && f.typ == None
    ensures forall c, k, i :: 0 <= i < |GroupOf(Scan(es, resolve, humanize), c, k)| ==>
      var f := GroupOf(Scan(es, resolve, humanize), c, k)[i];
      !StartsWithDot(CleanName(f.name)) && !f.isDir && f.category == c && f.typ == Some(Type(c, k))
  {
    ScanAgreesWithReference(es, resolve, humanize);
    forall c, k, i | 0 <= i < |GroupOf(Scan(es, resolve, humanize), c, k)|
      ensures var f := GroupOf(Scan(es, resolve, humanize), c, k)[i];
        !StartsWithDot(CleanName(f.name)) && !f.isDir && f.category == c && f.typ == Some(Type(c, k))
    {
      EmptyLabelNeverListed(es, c, resolve, humanize);
    }
  }

  /** Every visible directory has a record, so it is listed. */
  lemma {:induction false} VisibleDirListed(es: seq<Entry>, j: nat)
    requires j < |es| && VisibleDir(es[j])
    ensures DirFile(es[j]) in Dirs(es)
    decreases |es|
  {
    if j < |es| - 1 {
      VisibleDirListed(es[..|es| - 1], j);
    }
  }

  /** Every visible file has a record in the members of its own type. */
  lemma {:induction false} VisibleFileListed(es: seq<Entry>, j: nat, resolve: string -> string, humanize: nat -> string)
    requires AllClassifiable(es, resolve) && j < |es| && VisibleFile(es[j])
    ensures var t := Classify(es[j], resolve);
      FileOf(es[j], t, humanize) in Members(es, t.cat, t.kind, resolve, humanize)
    decreases |es|
  {
    PrefixFacts(es, |es| - 1, resolve);
    if j < |es| - 1 {
      VisibleFileListed(es[..|es| - 1], j, resolve, humanize);
    }
  }

  /** The `Directory` key holds a list exactly when a visible directory was
      scanned, a label map exactly when a file was classified under
      `Directory`, and nothing otherwise; every other key holds a label map. */
  lemma DirectoryShape(es: seq<Entry>, resolve: string -> string, humanize: nat -> string)
    requires NoPanic(es, resolve)
    ensures var g := Scan(es, resolve, humanize);
      forall c :: c in g && c != Dir ==> g[c].Typed?
    ensures var g := Scan(es, resolve, humanize);
      Dir in g && g[Dir].DirList? <==> HasVisibleDir(es)
    ensures var g := Scan(es, resolve, humanize);
      Dir in g && g[Dir].Typed? <==> HasDirTyped(es, resolve)
  {
    var g := Scan(es, resolve, humanize);
    assert WellFormed(g);
    ScanAgreesWithReference(es, resolve, humanize);
    if HasVisibleDir(es) {
      var j :| 0 <= j < |es| && VisibleDir(es[j]);
      VisibleDirListed(es, j);
    }
    if HasDirTyped(es, resolve) {
      var j :| 0 <= j < |es| && DirTyped(es[j], resolve);
      VisibleFileListed(es, j, resolve, humanize);
      var t := Classify(es[j], resolve);
      assert GroupOf(g, Dir, t.kind) != [];
    }
  }

  /** The number of records in each label list of a label map. */
  ghost function LabelSizes(groups: map<string, seq<File>>): map<string, nat>
  {
    map k | k in groups :: |groups[k]|
  }

  /** The number of records in a bucket. */
  ghost function BucketSize(b: Bucket): nat
  {
    match b
    case DirList(files) => |files|
    case Typed(groups) => MapSum(LabelSizes(groups))
  }

  /** The number of records in a grouped result, over all buckets. */
  ghost function Total(g: Grouped): nat
  {
    MapSum(map c | c in g :: BucketSize(g[c]))
  }

  /** Appending to the directory list adds one record. */
  lemma TotalAppendDir(g: Grouped, f: File)
    requires Dir !in g || g[Dir].DirList?
    ensures Total(AppendDir(g, f)) == Total(g) + 1
  {
    var sizes := map c | c in g :: BucketSize(g[c]);
    assert (map c | c in AppendDir(g, f) :: BucketSize(AppendDir(g, f)[c]))
      == sizes[Dir := |DirListOf(g)| + 1];
    MapSumUpdate(sizes, Dir, |DirListOf(g)| + 1);
  }

  /** Appending to a label list adds one record to its bucket. */
  lemma BucketSizeAppend(g: Grouped, c: Category, k: string, f: File)
    requires c !in g || g[c].Typed?
    ensures BucketSize(Typed(GroupsOf(g, c)[k := GroupOf(g, c, k) + [f]])) ==
      (if c in g then BucketSize(g[c]) else 0) + 1
  {
    var groups := GroupsOf(g, c);
    var labels := LabelSizes(groups);
    assert LabelSizes(groups[k := GroupOf(g, c, k) + [f]]) == labels[k := |GroupOf(g, c, k)| + 1];
    MapSumUpdate(labels, k, |GroupOf(g, c, k)| + 1);
    assert c !in g ==> labels == map[];
  }

  /** Appending to a label list adds one record. */
  lemma TotalAppendTyped(g: Grouped, c: Category, k: string, f: File)
    requires c !in g || g[c].Typed?
    ensures Total(AppendTyped(g, c, k, f)) == Total(g) + 1
  {
    var before := if c in g then BucketSize(g[c]) else 0;
    BucketSizeAppend(g, c, k, f);
    var sizes := map c' | c' in g :: BucketSize(g[c']);
    assert (map c' | c' in AppendTyped(g, c, k, f) :: BucketSize(AppendTyped(g, c, k, f)[c']))
      == sizes[c := before + 1];
    MapSumUpdate(sizes, c, before + 1);
  }

  /** Conservation: every visible entry is either listed exactly once or
      dropped because its type has an empty label, so the records of the
      scan and the dropped files add up to the count of `CountFilesInDir`
      (before wrap-around). */
  lemma {:induction false} ScanCount(es: seq<Entry>, resolve: string -> string, humanize: nat -> string)
    requires NoPanic(es, resolve)
    ensures Total(Scan(es, resolve, humanize)) + Dropped(es, resolve) == VisibleCount(es)
    decreases |es|
  {
    if es == [] {
      assert (map c | c in Scan(es, resolve, humanize) :: 0) == map[];
    } else {
      var i := |es| - 1;
      var init, e := es[..i], es[i];
      ScanStep(es, i, resolve, humanize);
      PrefixFacts(es, i, resolve);
      TakeAll(es);
      ScanCount(init, resolve, humanize);
      var g := Scan(init, resolve, humanize);
      if !Hidden(e) {
        if e.isDir {
          TotalAppendDir(g, DirFile(e));
        } else {
          var t := Classify(e, resolve);
          if t.kind != "" {
            TotalAppendTyped(g, t.cat, t.kind, FileOf(e, t, humanize));
          }
        }
      }
    }
  }

  /** `CountFilesInDir` (before wrap-around) equals the number of records of
      `ProcessDir` exactly when no visible file gets an empty label. */
  lemma CountMatchesTotal(es: seq<Entry>, resolve: string -> string, humanize: nat -> string)
    requires NoPanic(es, resolve)
    ensures Total(Scan(es, resolve, humanize)) == VisibleCount(es) <==>
      forall i :: 0 <= i < |es| && VisibleFile(es[i]) ==> Classify(es[i], resolve).kind != ""
  {
    ScanCount(es, resolve, humanize);
  }

  /** A visible file without an extension, which the resolver does not know,
      is counted by `CountFilesInDir` but appears in no bucket of
      `ProcessDir`, so the records fall short of the count. */
  lemma ExtensionlessDropped(es: seq<Entry>, j: nat, resolve: string -> string, humanize: nat -> string)
    requires NoPanic(es, resolve) && j < |es| && VisibleFile(es[j])
    requires '.' !in LastElement(CleanName(es[j].name)) && resolve("") == ""
    ensures forall c, k :: FileOf(es[j], Classify(es[j], resolve), humanize) !in GroupOf(Scan(es, resolve, humanize), c, k)
    ensures Dropped(es, resolve) > 0
    ensures Total(Scan(es, resolve, humanize)) < VisibleCount(es)
  {
    ExtensionlessIsUnlabelled(CleanName(es[j].name), resolve);
    var t := Classify(es[j], resolve);
    assert t.kind == "";
    var f := FileOf(es[j], t, humanize);
    forall c, k
      ensures f !in GroupOf(Scan(es, resolve, humanize), c, k)
    {
      if k == "" {
        EmptyLabelNeverListed(es, c, resolve, humanize);
      } else {
        HiddenNeverListed(es, resolve, humanize);
      }
    }
    assert Dropped(es, resolve) > 0 by {
      assert VisibleFile(es[j]) && Classify(es[j], resolve).kind == "";
    }
    ScanCount(es, resolve, humanize);
  }
}
