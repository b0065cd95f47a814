/**
 * `_get_md_files`: the Markdown files of a source folder, in the order the
 * converter hands them to pandoc.
 */
module Discovery {
  import opened Wrappers
  import opened Text
  import opened Ordering

  /** A name ending in ".md" in any letter case, other than the archive's own index page. */
  predicate IsMarkdownName(name: string) {
    EndsWith(Lower(name), ".md") && Lower(name) != "index.md"
  }

  /** The Markdown names of a listing, in listing order, duplicates kept. */
  function Markdown(names: seq<string>): seq<string> {
    if names == [] then []
    else (if IsMarkdownName(names[0]) then [names[0]] else []) + Markdown(names[1..])
  }

  /**
   * The files pandoc is given: the Markdown names of the folder listing,
   * sorted; no files when the folder cannot be listed.
   */
  function MdFiles(listing: Option<seq<string>>): (files: seq<string>)
    ensures Sorted(files)
    ensures listing.None? ==> files == []
  {
    match listing
    case None => []
    case Some(names) => Sort(Markdown(names))
  }

  /** Every Markdown name of the listing is kept as often as it is listed, and nothing else. */
  lemma {:induction false} MarkdownCount(names: seq<string>, x: string)
    ensures multiset(Markdown(names))[x] == if IsMarkdownName(x) then multiset(names)[x] else 0
    decreases |names|
  {
    if names != [] {
      MarkdownCount(names[1..], x);
      assert names == [names[0]] + names[1..];
    }
  }

  /** The files are the listing's Markdown names, each as often as it is listed. */
  lemma MdFilesCount(listing: Option<seq<string>>, x: string)
    ensures multiset(MdFiles(listing))[x] == if listing.Some? && IsMarkdownName(x) then multiset(listing.value)[x] else 0
  {
    if listing.Some? {
      MarkdownCount(listing.value, x);
    }
  }

  /** A name is offered exactly when the folder lists it and it is a Markdown name. */
  lemma MdFilesMembership(listing: Option<seq<string>>, x: string)
    ensures x in MdFiles(listing) <==> listing.Some? && x in listing.value && IsMarkdownName(x)
  {
    var files := MdFiles(listing);
    MdFilesCount(listing, x);
    assert x in files <==> multiset(files)[x] > 0;
    if listing.Some? {
      assert x in listing.value <==> multiset(listing.value)[x] > 0;
    }
  }

  /**
   * The result is fully determined by the listing's contents: any sorted
   * arrangement of the Markdown names is the result, whatever order the
   * folder was listed in.
   */
  lemma MdFilesDetermined(names: seq<string>, files: seq<string>)
    requires Sorted(files)
    requires forall x :: multiset(files)[x] == if IsMarkdownName(x) then multiset(names)[x] else 0
    ensures MdFiles(Some(names)) == files
  {
    var r := MdFiles(Some(names));
    assert multiset(r) == multiset(files) by {
      forall x ensures multiset(r)[x] == multiset(files)[x] {
        MdFilesCount(Some(names), x);
      }
    }
    SortedUnique(r, files);
  }

  /** Letter case does not matter, for the extension nor for the index page. */
  lemma CaseInsensitive()
    ensures IsMarkdownName("Notes.MD")
    ensures !IsMarkdownName("INDEX.md") && !IsMarkdownName("Index.MD")
  {
    assert Lower("Notes.MD") == "notes.md";
    assert Lower("INDEX.md") == "index.md";
    assert Lower("Index.MD") == "index.md";
  }

  lemma ExampleNames()
    ensures IsMarkdownName("b.md") && IsMarkdownName("a.md")
    ensures !IsMarkdownName("index.md") && !IsMarkdownName("c.txt")
  {
    assert Lower("b.md") == "b.md" && Lower("a.md") == "a.md";
    assert Lower("index.md") == "index.md";
    assert Lower("c.txt") == "c.txt";
    assert "c.txt"[2..][2] != ".md"[2];
  }

  /** Two Markdown names, the index page and another file: the two names stay, in listing order. */
  lemma FilterFour(b: string, a: string, i: string, c: string)
    requires IsMarkdownName(b) && IsMarkdownName(a) && !IsMarkdownName(i) && !IsMarkdownName(c)
    ensures Markdown([b, a, i, c]) == [b, a]
  {
    var none: seq<string> := [];
    assert [b, a, i, c] == [b] + ([a] + ([i] + ([c] + none)));
    MarkdownCons(c, none);
    MarkdownCons(i, [c] + none);
    MarkdownCons(a, [i] + ([c] + none));
    MarkdownCons(b, [a] + ([i] + ([c] + none)));
  }

  lemma MarkdownCons(x: string, rest: seq<string>)
    ensures Markdown([x] + rest) == (if IsMarkdownName(x) then [x] else []) + Markdown(rest)
  {
    assert ([x] + rest)[1..] == rest;
  }

  /** A folder holding b.md, a.md, index.md and c.txt yields a.md then b.md. */
  lemma Example(b: string, a: string, i: string, c: string)
    requires b == "b.md" && a == "a.md" && i == "index.md" && c == "c.txt"
    ensures MdFiles(Some([b, a, i, c])) == [a, b]
  {
    ExampleNames();
    FilterFour(b, a, i, c);
    assert LessEq(a, b) by {
      assert a[0] < b[0];
    }
    SortTwo([b, a], b, a);
  }

  lemma SortTwo(m: seq<string>, x: string, y: string)
    requires m == [x, y] && LessEq(y, x)
    ensures Sort(m) == [y, x]
  {
    var r := Sort(m);
    assert multiset(m) == multiset([y, x]);
    assert Sorted([y, x]);
    SortedUnique(r, [y, x]);
  }
}
