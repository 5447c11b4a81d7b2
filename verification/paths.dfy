/**
 * The `Path` value of the JSON REST client: a URL path held as its list of
 * non-empty segments, rendered as `/` followed by the segments joined by `/`.
 */
module Paths {

  const Separator: char := '/'

  /**
   * `components(separatedBy: "/")`: the maximal runs between separators,
   * empty runs included, so `k` separators give `k + 1` components.
   */
  function Split(s: string): (r: seq<string>)
    ensures |r| >= 1
  {
    if |s| == 0 then [""]
    else
      var rest := Split(s[1..]);
      if s[0] == Separator then [""] + rest
      else [[s[0]] + rest[0]] + rest[1..]
  }

  /** No component of a split holds a separator. */
  lemma {:induction false} SplitSegmentsSeparatorFree(s: string)
    ensures forall i :: 0 <= i < |Split(s)| ==> Separator !in Split(s)[i]
  {
    if |s| > 0 {
      SplitSegmentsSeparatorFree(s[1..]);
      var rest := Split(s[1..]);
      if s[0] != Separator {
        assert Separator !in [s[0]] + rest[0];
      }
    }
  }

  /** `joined(separator: "/")`. */
  function Join(xs: seq<string>): string
  {
    if |xs| == 0 then ""
    else if |xs| == 1 then xs[0]
    else xs[0] + [Separator] + Join(xs[1..])
  }

  /** `filter({ !$0.isEmpty })`. */
  function NonEmpty(xs: seq<string>): (r: seq<string>)
    ensures forall i :: 0 <= i < |r| ==> r[i] != "" && r[i] in xs
    ensures forall i :: 0 <= i < |xs| && xs[i] != "" ==> xs[i] in r
  {
    if |xs| == 0 then []
    else if xs[0] == "" then NonEmpty(xs[1..])
    else [xs[0]] + NonEmpty(xs[1..])
  }

  datatype Path = Path(components: seq<string>)

  /** The invariant every constructed path keeps: no segment is empty or holds a separator. */
  predicate Valid(p: Path) {
    forall i :: 0 <= i < |p.components| ==> p.components[i] != "" && Separator !in p.components[i]
  }

  /** `Path.init(_:)`: split on `/` and drop the empty segments. */
  function Parse(raw: string): (p: Path)
    ensures Valid(p)
  {
    SplitSegmentsSeparatorFree(raw);
    Path(NonEmpty(Split(raw)))
  }

  /** `absolutePath`. */
  function AbsolutePath(p: Path): (s: string)
    ensures |s| >= 1 && s[0] == Separator
  {
    [Separator] + Join(p.components)
  }

  /** `append(path:)`, the new value of the mutated receiver. */
  function Append(p: Path, q: Path): (r: Path)
    ensures |r.components| == |p.components| + |q.components|
    ensures r.components[..|p.components|] == p.components
    ensures r.components[|p.components|..] == q.components
    ensures Valid(p) && Valid(q) ==> Valid(r)
  {
    Path(p.components + q.components)
  }

  /** `appending(path:)`: append to a copy; the receiver, a value, is left as it was. */
  function Appending(p: Path, q: Path): (r: Path)
    ensures r.components == p.components + q.components
    ensures Valid(p) && Valid(q) ==> Valid(r)
    ensures Valid(p) && Valid(q) ==>
      Parse(AbsolutePath(r)).components == Parse(AbsolutePath(p)).components + Parse(AbsolutePath(q)).components
  {
    var copy := p;
    var r := Append(copy, q);
    if Valid(p) && Valid(q) then
      ParseAbsolutePath(p);
      ParseAbsolutePath(q);
      ParseAbsolutePath(r);
      r
    else r
  }

  // ---------------------------------------------------------------------
  // Split and Join are inverse to each other.

  /** Joining the components of any string gives the string back. */
  lemma {:induction false} JoinSplit(s: string)
    ensures Join(Split(s)) == s
  {
    if |s| > 0 {
      var rest := Split(s[1..]);
      JoinSplit(s[1..]);
      if s[0] == Separator {
        assert Split(s) == [""] + rest;
        assert Join([""] + rest) == "" + [Separator] + Join(rest);
      } else if |rest| == 1 {
        assert Split(s) == [[s[0]] + rest[0]];
      } else {
        var r := [[s[0]] + rest[0]] + rest[1..];
        assert r[1..] == rest[1..];
        assert Join(rest) == rest[0] + [Separator] + Join(rest[1..]);
        assert Join(r) == [s[0]] + Join(rest);
        assert s == [s[0]] + s[1..];
      }
    }
  }

  lemma {:induction false} SplitNoSeparator(s: string)
    requires Separator !in s
    ensures Split(s) == [s]
  {
    if |s| > 0 {
      SplitNoSeparator(s[1..]);
      assert s == [s[0]] + s[1..];
    }
  }

  /** One step of `Split`, stated for a string with a known first character. */
  lemma SplitCons(c: char, t: string)
    ensures Split([c] + t) == if c == Separator then [""] + Split(t) else [[c] + Split(t)[0]] + Split(t)[1..]
  {
    assert ([c] + t)[0] == c;
    assert ([c] + t)[1..] == t;
  }

  /** Extending the first of two concatenated runs of components by one character. */
  lemma ExtendFirst(c: char, st: seq<string>, sb: seq<string>)
    requires |st| >= 1
    ensures [[c] + (st + sb)[0]] + (st + sb)[1..] == ([[c] + st[0]] + st[1..]) + sb
  {
    assert (st + sb)[0] == st[0];
    assert (st + sb)[1..] == st[1..] + sb;
  }

  lemma {:induction false} SplitAround(a: string, b: string)
    ensures Split(a + [Separator] + b) == Split(a) + Split(b)
  {
    if |a| == 0 {
      assert a + [Separator] + b == [Separator] + b;
      SplitCons(Separator, b);
    } else {
      var c, t := a[0], a[1..];
      var tail := t + [Separator] + b;
      assert a == [c] + t;
      assert a + [Separator] + b == [c] + tail;
      SplitAround(t, b);
      SplitCons(c, tail);
      SplitCons(c, t);
      var st, sb := Split(t), Split(b);
      if c == Separator {
        assert [""] + (st + sb) == ([""] + st) + sb;
      } else {
        ExtendFirst(c, st, sb);
      }
    }
  }

  /** Splitting a join of separator-free segments gives the segments back. */
  lemma {:induction false} SplitJoin(xs: seq<string>)
    requires |xs| >= 1
    requires forall i :: 0 <= i < |xs| ==> Separator !in xs[i]
    ensures Split(Join(xs)) == xs
  {
    if |xs| == 1 {
      SplitNoSeparator(xs[0]);
    } else {
      SplitJoin(xs[1..]);
      SplitNoSeparator(xs[0]);
      SplitAround(xs[0], Join(xs[1..]));
      assert xs == [xs[0]] + xs[1..];
    }
  }

  lemma {:induction false} NonEmptyAppend(a: seq<string>, b: seq<string>)
    ensures NonEmpty(a + b) == NonEmpty(a) + NonEmpty(b)
  {
    if |a| == 0 {
      assert a + b == b;
    } else {
      assert (a + b)[1..] == a[1..] + b;
      NonEmptyAppend(a[1..], b);
    }
  }

  lemma {:induction false} NonEmptyKeeps(xs: seq<string>)
    requires forall i :: 0 <= i < |xs| ==> xs[i] != ""
    ensures NonEmpty(xs) == xs
  {
    if |xs| > 0 {
      NonEmptyKeeps(xs[1..]);
      assert xs == [xs[0]] + xs[1..];
    }
  }

  /**
   * The filter on one component: kept exactly when it is non-empty. With
   * `NonEmptyAppend` this fixes the order and the multiplicity of what is kept.
   */
  lemma NonEmptySingleton(x: string)
    ensures NonEmpty([x]) == if x == "" then [] else [x]
  {
    assert [x][1..] == [];
  }

  // ---------------------------------------------------------------------
  // Properties of paths.

  /** Re-parsing a rendered path gives the same segments. */
  lemma ParseAbsolutePath(p: Path)
    requires Valid(p)
    ensures Parse(AbsolutePath(p)) == p
  {
    var cs := p.components;
    if |cs| == 0 {
      assert AbsolutePath(p) == [Separator] == "" + [Separator] + "";
      SplitAround("", "");
    } else {
      assert AbsolutePath(p) == "" + [Separator] + Join(cs);
      SplitAround("", Join(cs));
      SplitJoin(cs);
      NonEmptyAppend([""], cs);
      NonEmptyKeeps(cs);
    }
  }

  /** Parsing is idempotent: parsing the rendering of a parsed string changes nothing. */
  lemma ParseIdempotent(raw: string)
    ensures Parse(AbsolutePath(Parse(raw))) == Parse(raw)
  {
    ParseAbsolutePath(Parse(raw));
  }

  lemma {:induction false} NonEmptySplitEmpty(s: string)
    ensures NonEmpty(Split(s)) == [] <==> forall i :: 0 <= i < |s| ==> s[i] == Separator
  {
    if |s| > 0 {
      NonEmptySplitEmpty(s[1..]);
      var rest := Split(s[1..]);
      if s[0] == Separator {
        assert Split(s) == [""] + rest;
        assert Split(s)[1..] == rest;
        if NonEmpty(rest) == [] {
          forall i | 0 <= i < |s| ensures s[i] == Separator {
            if i > 0 {
              assert s[1..][i - 1] == s[i];
            }
          }
        }
      } else {
        assert Split(s)[0] != "";
        assert s[0] != Separator;
      }
    }
  }

  /**
   * A path renders as the bare root `/` exactly when the raw string is made
   * of separators only (the empty string and `///` included).
   */
  lemma RootOnlyFromSeparators(raw: string)
    ensures AbsolutePath(Parse(raw)) == [Separator] <==> forall i :: 0 <= i < |raw| ==> raw[i] == Separator
  {
    NonEmptySplitEmpty(raw);
    var cs := Parse(raw).components;
    if |cs| > 0 {
      if |cs| == 1 {
        assert Join(cs) == cs[0];
      } else {
        assert |Join(cs)| >= |cs[0]|;
      }
    }
  }

  lemma EmptyAndSlashesRenderAsRoot()
    ensures AbsolutePath(Parse("")) == "/"
    ensures AbsolutePath(Parse("///")) == "/"
  {
    RootOnlyFromSeparators("");
    RootOnlyFromSeparators("///");
  }

  lemma ParseExampleBase()
    ensures Parse("/a/b/").components == ["a", "b"]
  {
    SplitNoSeparator("a");
    SplitNoSeparator("b");
    assert "b/" == "b" + [Separator] + "";
    SplitAround("b", "");
    assert Split("b/") == ["b", ""];
    assert "a/b/" == "a" + [Separator] + "b/";
    SplitAround("a", "b/");
    assert Split("a/b/") == ["a", "b", ""];
    assert "/a/b/" == "" + [Separator] + "a/b/";
    SplitAround("", "a/b/");
    assert Split("/a/b/") == ["", "a", "b", ""];
  }

  lemma ParseExampleTail()
    ensures Parse("c//d").components == ["c", "d"]
  {
    SplitNoSeparator("c");
    SplitNoSeparator("d");
    assert "/d" == "" + [Separator] + "d";
    SplitAround("", "d");
    assert Split("/d") == ["", "d"];
    assert "c//d" == "c" + [Separator] + "/d";
    SplitAround("c", "/d");
    assert Split("c//d") == ["c", "", "d"];
  }

  lemma JoinExample()
    ensures Join(["a", "b", "c", "d"]) == "a/b/c/d"
  {
    var xs := ["a", "b", "c", "d"];
    assert xs[1..] == ["b", "c", "d"];
    assert xs[1..][1..] == ["c", "d"];
    assert xs[1..][1..][1..] == ["d"];
  }

  lemma AppendingExampleSegments(p: Path, q: Path)
    requires p.components == ["a", "b"] && q.components == ["c", "d"]
    ensures AbsolutePath(Appending(p, q)) == "/a/b/c/d"
  {
    assert Appending(p, q).components == ["a", "b", "c", "d"];
    JoinExample();
  }

  /** A worked example: `Path("/a/b/").appending(Path("c//d"))` renders as `/a/b/c/d`. */
  lemma AppendingExample()
    ensures AbsolutePath(Appending(Parse("/a/b/"), Parse("c//d"))) == "/a/b/c/d"
  {
    ParseExampleBase();
    ParseExampleTail();
    AppendingExampleSegments(Parse("/a/b/"), Parse("c//d"));
  }
}
