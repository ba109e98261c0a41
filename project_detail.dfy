/** The project detail page: `createSlug`, which turns a project name into the
    URL segment that names it, and the lookup of the project a URL names. */
module ProjectDetail {
  import opened Wrappers
  import opened Seqs
  import opened Text
  import opened Sheets

  /** The slug of a project without a name. */
  const UntitledSlug: string := "untitled-project"

  /** A character the pattern `[a-z0-9]` accepts. */
  predicate IsSlugAlnum(c: char)
  {
    'a' <= c <= 'z' || '0' <= c <= '9'
  }

  predicate NotHyphen(c: char)
  {
    c != '-'
  }

  predicate SlugChars(s: string)
  {
    forall i :: 0 <= i < |s| ==> IsSlugAlnum(s[i]) || s[i] == '-'
  }

  predicate NoDoubleHyphen(s: string)
  {
    forall i :: 0 <= i < |s| - 1 ==> s[i] != '-' || s[i + 1] != '-'
  }

  predicate NoEdgeHyphen(s: string)
  {
    s == [] || (s[0] != '-' && s[|s| - 1] != '-')
  }

  /** The shape every slug has: lower-case letters, digits and single inner hyphens. */
  predicate IsSlugShaped(s: string)
  {
    SlugChars(s) && NoDoubleHyphen(s) && NoEdgeHyphen(s)
  }

  /** `.replace(/[^a-z0-9]+/g, '-')`, as a left-to-right scan: `inRun` holds right
      after the hyphen of a run of other characters has been written. */
  function HyphenateRuns(s: string, inRun: bool): string
  {
    if s == [] then []
    else if IsSlugAlnum(s[0]) then [s[0]] + HyphenateRuns(s[1..], false)
    else if inRun then HyphenateRuns(s[1..], true)
    else "-" + HyphenateRuns(s[1..], true)
  }

  /** `.replace(/(^-|-$)+/g, '')` on a string without two adjacent hyphens: one
      leading and one trailing hyphen go. */
  function StripEdgeHyphens(s: string): string
  {
    DropTrailingHyphen(DropLeadingHyphen(s))
  }

  /** `createSlug(name)`; a missing name is the empty string here. */
  function CreateSlug(name: string): (slug: string)
    ensures name == "" ==> slug == UntitledSlug
    ensures IsSlugShaped(slug)
    ensures name != "" ==> Filter(slug, NotHyphen) == Filter(ToLower(name), IsSlugAlnum)
  {
    if name == "" then
      UntitledShaped();
      UntitledSlug
    else
      var runs := HyphenateRuns(ToLower(name), false);
      HyphenateRunsShape(ToLower(name), false);
      HyphenateRunsKeepsAlnums(ToLower(name), false);
      StripEdgeHyphensShape(runs);
      StripEdgeHyphens(runs)
  }

  lemma UntitledShaped()
    ensures IsSlugShaped(UntitledSlug)
  {
    assert UntitledSlug == ['u', 'n', 't', 'i', 't', 'l', 'e', 'd', '-', 'p', 'r', 'o', 'j', 'e', 'c', 't'];
  }

  /** The scan writes only slug characters, never two hyphens in a row, and never
      a hyphen first when it starts inside a run. */
  lemma {:induction false} HyphenateRunsShape(s: string, inRun: bool)
    ensures SlugChars(HyphenateRuns(s, inRun))
    ensures NoDoubleHyphen(HyphenateRuns(s, inRun))
    ensures inRun ==> HyphenateRuns(s, inRun) == [] || HyphenateRuns(s, inRun)[0] != '-'
  {
    if s != [] {
      if IsSlugAlnum(s[0]) {
        HyphenateRunsShape(s[1..], false);
      } else {
        HyphenateRunsShape(s[1..], true);
      }
    }
  }

  /** The scan keeps every letter and digit, in order, and adds only hyphens. */
  lemma {:induction false} HyphenateRunsKeepsAlnums(s: string, inRun: bool)
    ensures Filter(HyphenateRuns(s, inRun), NotHyphen) == Filter(s, IsSlugAlnum)
  {
    if s != [] {
      var rest := s[1..];
      if IsSlugAlnum(s[0]) {
        HyphenateRunsKeepsAlnums(rest, false);
        FilterConcat([s[0]], HyphenateRuns(rest, false), NotHyphen);
      } else {
        HyphenateRunsKeepsAlnums(rest, true);
        if !inRun {
          FilterConcat("-", HyphenateRuns(rest, true), NotHyphen);
        }
      }
    }
  }

  function DropLeadingHyphen(s: string): string
  {
    if s != [] && s[0] == '-' then s[1..] else s
  }

  function DropTrailingHyphen(s: string): string
  {
    if s != [] && s[|s| - 1] == '-' then s[..|s| - 1] else s
  }

  lemma DropLeadingHyphenShape(s: string)
    requires SlugChars(s) && NoDoubleHyphen(s)
    ensures var f := DropLeadingHyphen(s);
            SlugChars(f) && NoDoubleHyphen(f) && (f == [] || f[0] != '-')
            && Filter(f, NotHyphen) == Filter(s, NotHyphen)
  {
    if s != [] && s[0] == '-' {
      assert s == "-" + s[1..];
      FilterConcat("-", s[1..], NotHyphen);
      assert |s| > 1 ==> s[1] != '-';
    }
  }

  lemma DropTrailingHyphenShape(s: string)
    requires SlugChars(s) && NoDoubleHyphen(s) && (s == [] || s[0] != '-')
    ensures IsSlugShaped(DropTrailingHyphen(s))
    ensures Filter(DropTrailingHyphen(s), NotHyphen) == Filter(s, NotHyphen)
  {
    if s != [] && s[|s| - 1] == '-' {
      FilterDropLast(s, NotHyphen);
      PrefixShape(s, |s| - 1);
      TrailingHyphenEdges(s);
    }
  }

  /** Without its trailing hyphen, a string that starts with no hyphen and has no
      double hyphen has a hyphen at neither end. */
  lemma TrailingHyphenEdges(s: string)
    requires NoDoubleHyphen(s) && s != [] && s[0] != '-' && s[|s| - 1] == '-'
    ensures NoEdgeHyphen(s[..|s| - 1])
  {
    if |s| > 1 {
      assert s[|s| - 2] != '-';
      assert s[..|s| - 1][|s| - 2] == s[|s| - 2];
    }
  }

  /** A prefix of a string of slug characters without double hyphens is one too. */
  lemma PrefixShape(s: string, n: nat)
    requires n <= |s| && SlugChars(s) && NoDoubleHyphen(s)
    ensures SlugChars(s[..n]) && NoDoubleHyphen(s[..n])
  {
    assert forall i :: 0 <= i < n ==> s[..n][i] == s[i];
  }

  /** Removing the edge hyphens of a scan result leaves a slug-shaped string with
      the same letters and digits. */
  lemma StripEdgeHyphensShape(s: string)
    requires SlugChars(s) && NoDoubleHyphen(s)
    ensures IsSlugShaped(StripEdgeHyphens(s))
    ensures Filter(StripEdgeHyphens(s), NotHyphen) == Filter(s, NotHyphen)
  {
    DropLeadingHyphenShape(s);
    DropTrailingHyphenShape(DropLeadingHyphen(s));
  }

  /** The scan reproduces a string that has slug characters only and no double
      hyphen, provided it does not start with a hyphen while inside a run. */
  lemma {:induction false} HyphenateRunsFixes(s: string, inRun: bool)
    requires SlugChars(s) && NoDoubleHyphen(s)
    requires inRun ==> s == [] || s[0] != '-'
    ensures HyphenateRuns(s, inRun) == s
  {
    if s != [] {
      HyphenateRunsFixes(s[1..], !IsSlugAlnum(s[0]));
    }
  }

  /** Every non-empty slug is its own slug. */
  lemma SlugFixpoint(s: string)
    requires s != "" && IsSlugShaped(s)
    ensures CreateSlug(s) == s
  {
    ToLowerFixes(s);
    assert ToLower(s) == s;
    HyphenateRunsFixes(s, false);
  }

  /** `createSlug` is idempotent on its non-empty results. */
  lemma CreateSlugIdempotent(name: string)
    requires CreateSlug(name) != ""
    ensures CreateSlug(CreateSlug(name)) == CreateSlug(name)
  {
    SlugFixpoint(CreateSlug(name));
  }

  /** Lower-casing works character by character, so it distributes over `+`. */
  lemma ToLowerConcat(a: string, b: string)
    ensures ToLower(a + b) == ToLower(a) + ToLower(b)
  {
    var l, r := ToLower(a + b), ToLower(a) + ToLower(b);
    assert |l| == |r|;
    forall i | 0 <= i < |l| ensures l[i] == r[i] {
      if i < |a| {
        assert (a + b)[i] == a[i];
      } else {
        assert (a + b)[i] == b[i - |a|];
      }
    }
  }

  /** After a letter or digit the scan is outside a run, so the rest of the
      string is scanned afresh. */
  lemma {:induction false} HyphenateRunsConcat(a: string, b: string, inRun: bool)
    requires a != [] && IsSlugAlnum(a[|a| - 1])
    ensures HyphenateRuns(a + b, inRun) == HyphenateRuns(a, inRun) + HyphenateRuns(b, false)
  {
    assert (a + b)[0] == a[0];
    assert (a + b)[1..] == a[1..] + b;
    if |a| == 1 {
      assert a[1..] == [];
      assert HyphenateRuns(a, inRun) == [a[0]];
    } else {
      HyphenateRunsConcat(a[1..], b, !IsSlugAlnum(a[0]));
    }
  }

  /** A run of other characters followed by a letter or digit becomes a single
      hyphen, or nothing when the scan is already inside a run. */
  lemma {:induction false} HyphenateSeparator(sep: string, v: string, inRun: bool)
    requires forall i :: 0 <= i < |sep| ==> !IsSlugAlnum(sep[i])
    requires v != [] && IsSlugAlnum(v[0])
    ensures HyphenateRuns(sep + v, inRun) == (if inRun || sep == [] then "" else "-") + HyphenateRuns(v, false)
  {
    if sep == [] {
      assert sep + v == v;
    } else {
      assert (sep + v)[0] == sep[0];
      assert (sep + v)[1..] == sep[1..] + v;
      HyphenateSeparator(sep[1..], v, true);
    }
  }

  /** A string ending in a letter or digit scans to one ending in that character. */
  lemma {:induction false} HyphenateRunsLast(s: string, inRun: bool)
    requires s != [] && IsSlugAlnum(s[|s| - 1])
    ensures HyphenateRuns(s, inRun) != [] && HyphenateRuns(s, inRun)[|HyphenateRuns(s, inRun)| - 1] == s[|s| - 1]
  {
    if |s| > 1 {
      HyphenateRunsLast(s[1..], !IsSlugAlnum(s[0]));
    }
  }

  /** Stripping the edge hyphens of two pieces joined by a hyphen strips the
      outer edges only. */
  lemma StripJoin(x: string, y: string)
    requires x != [] && x[|x| - 1] != '-'
    requires y != [] && y[0] != '-'
    ensures StripEdgeHyphens(x + "-" + y) == StripEdgeHyphens(x) + "-" + StripEdgeHyphens(y)
  {
    var front := DropLeadingHyphen(x);
    assert front != [] && front[|front| - 1] != '-';
    assert DropLeadingHyphen(x + "-" + y) == front + "-" + y;
    assert DropTrailingHyphen(front + "-" + y) == front + "-" + DropTrailingHyphen(y);
  }

  /** The scan of a lower-cased name whose run of other characters sits between
      two letters or digits is the scans of the two sides joined by one hyphen. */
  lemma ScanJoin(a: string, sep: string, b: string)
    requires a != [] && IsSlugAlnum(a[|a| - 1])
    requires sep != [] && forall i :: 0 <= i < |sep| ==> !IsSlugAlnum(sep[i])
    requires b != [] && IsSlugAlnum(b[0])
    ensures HyphenateRuns(a + sep + b, false) == HyphenateRuns(a, false) + "-" + HyphenateRuns(b, false)
    ensures HyphenateRuns(a, false) != [] && HyphenateRuns(a, false)[|HyphenateRuns(a, false)| - 1] != '-'
    ensures HyphenateRuns(b, false) != [] && HyphenateRuns(b, false)[0] != '-'
  {
    assert a + sep + b == a + (sep + b);
    HyphenateRunsConcat(a, sep + b, false);
    HyphenateSeparator(sep, b, false);
    HyphenateRunsLast(a, false);
  }

  /** Two names joined by a run of characters outside `[a-z0-9]` (after
      lower-casing), with a letter or digit on either side of the run, give the
      two slugs joined by exactly one hyphen. */
  lemma CreateSlugJoin(u: string, sep: string, v: string)
    requires u != [] && IsSlugAlnum(LowerChar(u[|u| - 1]))
    requires sep != [] && forall i :: 0 <= i < |sep| ==> !IsSlugAlnum(LowerChar(sep[i]))
    requires v != [] && IsSlugAlnum(LowerChar(v[0]))
    ensures CreateSlug(u + sep + v) == CreateSlug(u) + "-" + CreateSlug(v)
  {
    var lu, ls, lv := ToLower(u), ToLower(sep), ToLower(v);
    ToLowerConcat(u + sep, v);
    ToLowerConcat(u, sep);
    ScanJoin(lu, ls, lv);
    StripJoin(HyphenateRuns(lu, false), HyphenateRuns(lv, false));
  }

  /** A string of other characters alone scans to one hyphen, or to nothing
      inside a run. */
  lemma {:induction false} HyphenateOnlyRun(sep: string, inRun: bool)
    requires forall i :: 0 <= i < |sep| ==> !IsSlugAlnum(sep[i])
    ensures HyphenateRuns(sep, inRun) == if inRun || sep == [] then "" else "-"
  {
    if sep != [] {
      HyphenateOnlyRun(sep[1..], true);
    }
  }

  /** A run of other characters in front of a name that starts with a letter or
      digit leaves no trace in the slug. */
  lemma CreateSlugLeadingRun(sep: string, v: string)
    requires sep != [] && forall i :: 0 <= i < |sep| ==> !IsSlugAlnum(LowerChar(sep[i]))
    requires v != [] && IsSlugAlnum(LowerChar(v[0]))
    ensures CreateSlug(sep + v) == CreateSlug(v)
  {
    var ls, lv := ToLower(sep), ToLower(v);
    ToLowerConcat(sep, v);
    HyphenateSeparator(ls, lv, false);
    var y := HyphenateRuns(lv, false);
    assert y != [] && y[0] == lv[0];
    assert DropLeadingHyphen("-" + y) == y;
  }

  /** The scan of a lower-cased name ending in a run of other characters is the
      scan without the run, plus one hyphen. */
  lemma ScanTrailingRun(a: string, sep: string)
    requires a != [] && IsSlugAlnum(a[|a| - 1])
    requires sep != [] && forall i :: 0 <= i < |sep| ==> !IsSlugAlnum(sep[i])
    ensures HyphenateRuns(a + sep, false) == HyphenateRuns(a, false) + "-"
    ensures HyphenateRuns(a, false) != [] && HyphenateRuns(a, false)[|HyphenateRuns(a, false)| - 1] != '-'
  {
    HyphenateRunsConcat(a, sep, false);
    HyphenateOnlyRun(sep, false);
    HyphenateRunsLast(a, false);
  }

  /** A run of other characters after a name that ends with a letter or digit
      leaves no trace in the slug. */
  lemma CreateSlugTrailingRun(u: string, sep: string)
    requires u != [] && IsSlugAlnum(LowerChar(u[|u| - 1]))
    requires sep != [] && forall i :: 0 <= i < |sep| ==> !IsSlugAlnum(LowerChar(sep[i]))
    ensures CreateSlug(u + sep) == CreateSlug(u)
  {
    var lu, ls := ToLower(u), ToLower(sep);
    ToLowerConcat(u, sep);
    ScanTrailingRun(lu, ls);
    StripTrailingHyphen(HyphenateRuns(lu, false));
  }

  /** Stripping the edge hyphens ignores one hyphen added after a last character
      that is not a hyphen. */
  lemma StripTrailingHyphen(x: string)
    requires x != [] && x[|x| - 1] != '-'
    ensures StripEdgeHyphens(x + "-") == StripEdgeHyphens(x)
  {
    var front := DropLeadingHyphen(x);
    assert front != [] && front[|front| - 1] != '-';
    assert DropLeadingHyphen(x + "-") == front + "-";
  }

  /** The slug depends only on the lower-cased name: upper-case letters are
      folded before anything else happens. With `SlugFixpoint` and the three run
      lemmas above this fixes the slug of every name whose letters and digits
      come in words separated by runs of other characters. */
  lemma CreateSlugIgnoresCase(name: string)
    ensures CreateSlug(ToLower(name)) == CreateSlug(name)
  {
    ToLowerFixes(name);
  }

  /** `p.name && createSlug(p.name) === slug` */
  predicate SlugNames(p: Row, slug: string)
  {
    Has(p, "name") && CreateSlug(p["name"]) == slug
  }

  /** Position `i` holds the first project that `slug` names. */
  predicate FirstNamedAt(projects: seq<Row>, slug: string, i: int)
  {
    0 <= i < |projects| && SlugNames(projects[i], slug) && forall j :: 0 <= j < i ==> !SlugNames(projects[j], slug)
  }

  lemma FirstNamedShift(projects: seq<Row>, slug: string, i: int)
    requires projects != [] && !SlugNames(projects[0], slug)
    requires FirstNamedAt(projects[1..], slug, i)
    ensures FirstNamedAt(projects, slug, i + 1)
  {
    forall j | 1 <= j < i + 1
      ensures !SlugNames(projects[j], slug)
    {
      assert projects[j] == projects[1..][j - 1];
    }
  }

  /** `data.find(...)`: the first project the slug names, or `None`, in which case
      the page shows "Project Not Found". */
  function FindProject(projects: seq<Row>, slug: string): (found: Option<Row>)
    ensures found.None? <==> forall p :: p in projects ==> !SlugNames(p, slug)
    ensures found.Some? ==> exists i :: FirstNamedAt(projects, slug, i) && projects[i] == found.value
  {
    if projects == [] then None
    else if SlugNames(projects[0], slug) then
      assert FirstNamedAt(projects, slug, 0);
      Some(projects[0])
    else
      var found := FindProject(projects[1..], slug);
      if found.Some? then
        var i :| FirstNamedAt(projects[1..], slug, i) && projects[1..][i] == found.value;
        FirstNamedShift(projects, slug, i);
        found
      else
        assert forall p :: p in projects ==> p == projects[0] || p in projects[1..];
        found
  }

  /** A URL segment that no slug can equal (an upper-case letter, a double or
      edge hyphen, any other character) never finds a project. */
  lemma MalformedSlugNotFound(projects: seq<Row>, slug: string)
    requires !IsSlugShaped(slug)
    ensures FindProject(projects, slug) == None
  {
  }

  /** The detail page reads the project sheet through `fetchData('project')`; the
      image rewrite never changes which project a slug finds. */
  lemma {:induction false} LookupSurvivesNormalisation(rows: seq<Row>, slug: string)
    ensures FindProject(NormaliseProjectRows(rows), slug)
         == match FindProject(rows, slug)
            case Some(p) => Some(NormaliseProjectRow(p))
            case None => None
  {
    if rows != [] {
      assert NormaliseProjectRows(rows)[1..] == NormaliseProjectRows(rows[1..]);
      LookupSurvivesNormalisation(rows[1..], slug);
    }
  }
}
