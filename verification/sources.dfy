/** The list of data sources the main window offers: the module layout, which
    every dataset has, followed by the analyses stored under the dataset's
    `analyses` directory, one subdirectory each. */
module Sources {
  import opened Wrappers
  import Text
  import PyList

  const ModuleLayout: string := "Module Layout"
  const SunFilter: string := "Sun Filter"

  /** The subdirectories of the dataset's `analyses` directory, or None when
      that directory does not exist. */
  type Listing = Option<seq<string>>

  /** The analysis names as the directory listing yields them, sorted. */
  function SortedAnalyses(analyses: seq<string>): (r: seq<string>)
    ensures Text.Sorted(r) && multiset(r) == multiset(analyses)
  {
    Text.SortSpec(analyses);
    Text.Sort(analyses)
  }

  /** `update_source_names` of the main controller and of the older
      application: without a dataset only the module layout; with one, the
      module layout followed by the sorted analysis names, and FileNotFoundError
      when the dataset has no `analyses` directory. */
  function SourceNames(dirSet: bool, analyses: Listing): (r: Result<seq<string>>)
    ensures r.Raise? <==> dirSet && analyses.None?
    ensures r.Raise? ==> r.error == FileNotFoundError
    ensures r.Ok? ==> |r.value| >= 1 && r.value[0] == ModuleLayout && Text.Sorted(r.value[1..])
    ensures r.Ok? ==> multiset(r.value[1..]) == if dirSet then multiset(analyses.value) else multiset{}
  {
    if !dirSet then
      assert [ModuleLayout][1..] == [];
      Ok([ModuleLayout])
    else if analyses.None? then Raise(FileNotFoundError)
    else
      var sorted := SortedAnalyses(analyses.value);
      assert ([ModuleLayout] + sorted)[1..] == sorted;
      Ok([ModuleLayout] + sorted)
  }

  /** Dropping the first occurrence of a name keeps a sorted list sorted. */
  lemma {:induction false} RemoveFirstSorted(xs: seq<string>, x: string)
    requires Text.Sorted(xs)
    ensures Text.Sorted(PyList.RemoveFirst(xs, x))
  {
    if |xs| > 0 {
      SortedTail(xs);
      if xs[0] != x {
        var t := PyList.RemoveFirst(xs[1..], x);
        RemoveFirstSorted(xs[1..], x);
        PyList.RemoveFirstSubset(xs[1..], x);
        HeadBelowRest(xs);
        SortedCons(xs[0], t);
      }
    }
  }

  lemma HeadBelowRest(xs: seq<string>)
    requires Text.Sorted(xs) && |xs| > 0
    ensures forall y :: y in xs[1..] ==> Text.LexLe(xs[0], y)
  {
    forall y | y in xs[1..] ensures Text.LexLe(xs[0], y) {
      var k :| 0 <= k < |xs[1..]| && xs[1..][k] == y;
      assert xs[k + 1] == y;
    }
  }

  lemma SortedTail(xs: seq<string>)
    requires Text.Sorted(xs) && |xs| > 0
    ensures Text.Sorted(xs[1..])
  {
    forall i, j | 0 <= i < j < |xs[1..]| ensures Text.LexLe(xs[1..][i], xs[1..][j]) {
      assert xs[1..][i] == xs[i + 1] && xs[1..][j] == xs[j + 1];
    }
  }

  lemma SortedCons(h: string, t: seq<string>)
    requires Text.Sorted(t) && forall y :: y in t ==> Text.LexLe(h, y)
    ensures Text.Sorted([h] + t)
  {
    var r := [h] + t;
    forall i, j | 0 <= i < j < |r| ensures Text.LexLe(r[i], r[j]) {
      assert r[j] == t[j - 1];
      if i > 0 {
        assert r[i] == t[i - 1];
      }
    }
  }

  /** `update_source_names` of the main window: a missing `analyses` directory
      reads as having no analyses, and the sun-filter analysis, whose output
      is not a module map, is dropped from the list. */
  function DisplayedSourceNames(dirSet: bool, analyses: Listing): (r: seq<string>)
  {
    var listed := if dirSet && analyses.Some? then SortedAnalyses(analyses.value) else [];
    PyList.RemoveFirst([ModuleLayout] + listed, SunFilter)
  }

  /** Removing the sun filter from a sorted list without duplicates placed
      after the module layout. */
  lemma DropSunFilter(listed: seq<string>)
    requires Text.Sorted(listed) && PyList.NoDup(listed)
    ensures var r := PyList.RemoveFirst([ModuleLayout] + listed, SunFilter);
      |r| >= 1 && r[0] == ModuleLayout && Text.Sorted(r[1..]) && SunFilter !in r &&
      (forall n :: n in r[1..] <==> n != SunFilter && n in listed)
  {
    var t := PyList.RemoveFirst(listed, SunFilter);
    assert ([ModuleLayout] + listed)[1..] == listed;
    assert PyList.RemoveFirst([ModuleLayout] + listed, SunFilter) == [ModuleLayout] + t;
    assert ([ModuleLayout] + t)[1..] == t;
    RemoveFirstSorted(listed, SunFilter);
    PyList.RemoveFirstNoDup(listed, SunFilter);
  }

  /** The displayed list starts with the module layout, continues in sorted
      order, never shows the sun filter, and shows every other analysis
      exactly when the dataset lists it. */
  lemma DisplayedSourceNamesSpec(dirSet: bool, analyses: Listing)
    requires analyses.Some? ==> PyList.NoDup(analyses.value)
    ensures var r := DisplayedSourceNames(dirSet, analyses);
      |r| >= 1 && r[0] == ModuleLayout && Text.Sorted(r[1..]) && SunFilter !in r &&
      (forall n :: n in r[1..] <==> n != SunFilter && dirSet && analyses.Some? && n in analyses.value)
    ensures !dirSet || analyses.None? ==> DisplayedSourceNames(dirSet, analyses) == [ModuleLayout]
  {
    if dirSet && analyses.Some? {
      var listed := SortedAnalyses(analyses.value);
      PyList.NoDupPerm(analyses.value, listed);
      forall n ensures n in listed <==> n in analyses.value {
        assert n in listed <==> n in multiset(listed);
        assert n in analyses.value <==> n in multiset(analyses.value);
      }
      DropSunFilter(listed);
    } else {
      DropSunFilter([]);
      assert [ModuleLayout] + [] == [ModuleLayout];
    }
  }

  /** The listing after `shutil.rmtree(<dataset>/analyses/<name>, ignore_errors=True)`:
      the analysis is gone, and a missing directory is no error. */
  function Deleted(analyses: Listing, name: string): (r: Listing)
    ensures r.Some? == analyses.Some?
  {
    if analyses.None? then None else Some(PyList.Filter(analyses.value, n => n != name))
  }

  /** Deleting removes exactly the named analysis and keeps the listing free
      of duplicates. */
  lemma DeletedSpec(analyses: Listing, name: string)
    requires analyses.Some?
    ensures forall n :: n in Deleted(analyses, name).value <==> n in analyses.value && n != name
    ensures PyList.NoDup(analyses.value) ==> PyList.NoDup(Deleted(analyses, name).value)
  {
    var kept := Deleted(analyses, name).value;
    forall n ensures n in kept <==> n in analyses.value && n != name {
      PyList.FilterMembership(analyses.value, m => m != name, n);
    }
    if PyList.NoDup(analyses.value) {
      var p := (m: string) => m != name;
      PyList.FilterSpec(analyses.value, p);
      var ks := PyList.KeptIndices(analyses.value, p);
      forall i, j | 0 <= i < j < |kept| ensures kept[i] != kept[j] {
        assert kept[i] == analyses.value[ks[i]] && kept[j] == analyses.value[ks[j]];
        assert ks[i] < ks[j];
      }
    }
  }
}
