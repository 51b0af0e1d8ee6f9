/** File-name handling: selecting annotation files from a directory listing
    by their `.json` suffix, Python's `str.replace`, and the name of the COCO
    file written for an image. */
module Names {
  import opened Sequences

  /** Python's `s.endswith(suffix)`. */
  predicate EndsWith(s: string, suffix: string)
  {
    |suffix| <= |s| && s[|s| - |suffix|..] == suffix
  }

  predicate IsJsonName(name: string)
  {
    EndsWith(name, ".json")
  }

  /** `read_json_files`: the names of a directory listing that end in `.json`,
      kept in listing order. */
  function ReadJsonFiles(listing: seq<string>): (r: seq<string>)
    ensures |r| <= |listing|
    ensures forall name :: name in r <==> name in listing && IsJsonName(name)
  {
    if |listing| == 0 then []
    else if IsJsonName(listing[0]) then [listing[0]] + ReadJsonFiles(listing[1..])
    else ReadJsonFiles(listing[1..])
  }

  /** Listing order is kept: selecting from two consecutive parts of a listing
      gives the selection from the first part followed by that of the second. */
  lemma {:induction false} ReadJsonFilesAppend(a: seq<string>, b: seq<string>)
    ensures ReadJsonFiles(a + b) == ReadJsonFiles(a) + ReadJsonFiles(b)
  {
    if |a| == 0 {
      assert a + b == b;
    } else {
      assert (a + b)[0] == a[0];
      assert (a + b)[1..] == a[1..] + b;
      ReadJsonFilesAppend(a[1..], b);
    }
  }

  /** A listing of `.json` names only is kept whole, so selecting twice is
      the same as selecting once. */
  lemma {:induction false} ReadJsonFilesKeepsAllJson(listing: seq<string>)
    requires forall k :: 0 <= k < |listing| ==> IsJsonName(listing[k])
    ensures ReadJsonFiles(listing) == listing
  {
    if |listing| > 0 {
      ReadJsonFilesKeepsAllJson(listing[1..]);
    }
  }

  lemma ReadJsonFilesIdempotent(listing: seq<string>)
    ensures ReadJsonFiles(ReadJsonFiles(listing)) == ReadJsonFiles(listing)
  {
    var r := ReadJsonFiles(listing);
    assert forall k :: 0 <= k < |r| ==> r[k] in r;
    ReadJsonFilesKeepsAllJson(r);
  }

  /** Names in a listing are distinct; so are the selected ones. */
  lemma {:induction false} ReadJsonFilesDistinct(listing: seq<string>)
    requires NoDuplicates(listing)
    ensures NoDuplicates(ReadJsonFiles(listing))
  {
    if |listing| > 0 {
      ReadJsonFilesDistinct(listing[1..]);
      var rest := ReadJsonFiles(listing[1..]);
      assert listing[0] !in listing[1..];
      assert listing[0] !in rest;
    }
  }

  /** `pat` occurs in `s` starting at position `i`. */
  predicate MatchAt(s: string, pat: string, i: int)
  {
    0 <= i && i + |pat| <= |s| && s[i..i + |pat|] == pat
  }

  predicate Contains(s: string, pat: string)
  {
    exists i :: 0 <= i <= |s| && MatchAt(s, pat, i)
  }

  /** Python's `s.replace(pat, rep)` for a non-empty `pat`: the occurrences
      of `pat` found scanning left to right, without overlap, are each
      replaced by `rep`. */
  function ReplaceAll(s: string, pat: string, rep: string): string
    requires |pat| > 0
    decreases |s|
  {
    if |s| < |pat| then s
    else if s[..|pat|] == pat then rep + ReplaceAll(s[|pat|..], pat, rep)
    else [s[0]] + ReplaceAll(s[1..], pat, rep)
  }

  /** A string in which `pat` does not occur is left unchanged. */
  lemma {:induction false} ReplaceAllAbsent(s: string, pat: string, rep: string)
    requires |pat| > 0
    requires !Contains(s, pat)
    ensures ReplaceAll(s, pat, rep) == s
    decreases |s|
  {
    if |s| >= |pat| {
      assert !MatchAt(s, pat, 0);
      if Contains(s[1..], pat) {
        var i :| 0 <= i <= |s[1..]| && MatchAt(s[1..], pat, i);
        assert s[1..][i..i + |pat|] == s[i + 1..i + 1 + |pat|];
        assert MatchAt(s, pat, i + 1);
        assert false;
      }
      ReplaceAllAbsent(s[1..], pat, rep);
    }
  }

  /** A prefix at none of whose positions an occurrence starts is copied
      as it is. */
  lemma {:induction false} ReplaceAllSkipsPrefix(a: string, b: string, pat: string, rep: string)
    requires |pat| > 0
    requires forall i :: 0 <= i < |a| ==> !MatchAt(a + b, pat, i)
    ensures ReplaceAll(a + b, pat, rep) == a + ReplaceAll(b, pat, rep)
    decreases |a|
  {
    if |a| == 0 {
      assert a + b == b;
    } else if |a + b| < |pat| {
      assert |b| < |pat|;
    } else {
      assert !MatchAt(a + b, pat, 0);
      assert (a + b)[1..] == a[1..] + b;
      assert ReplaceAll(a + b, pat, rep) == [a[0]] + ReplaceAll(a[1..] + b, pat, rep);
      assert a == [a[0]] + a[1..];
      forall i | 0 <= i < |a[1..]|
        ensures !MatchAt(a[1..] + b, pat, i)
      {
        assert !MatchAt(a + b, pat, i + 1);
        if i + 1 + |pat| <= |a + b| {
          assert (a + b)[i + 1..i + 1 + |pat|] == (a[1..] + b)[i..i + |pat|];
        }
      }
      ReplaceAllSkipsPrefix(a[1..], b, pat, rep);
    }
  }

  /** No occurrence can straddle the end of `a` when `b` starts with the
      first character of `pat` and that character does not recur in `pat`. */
  lemma NoStraddle(a: string, b: string, pat: string, i: int)
    requires |pat| > 0 && pat[0] !in pat[1..]
    requires |b| > 0 && b[0] == pat[0]
    requires 0 <= i < |a| < i + |pat|
    ensures !MatchAt(a + b, pat, i)
  {
    var k := |a| - i;
    assert pat[1..][k - 1] == pat[k];
    assert pat[k] != (a + b)[|a|];
    if i + |pat| <= |a + b| {
      assert (a + b)[i..i + |pat|][k] != pat[k];
    }
  }

  /** Such a pattern occurs in `a + b` only where it occurs in `a` or in `b`. */
  lemma NoMatchInConcat(a: string, b: string, pat: string)
    requires |pat| > 0 && pat[0] !in pat[1..]
    requires |b| > 0 && b[0] == pat[0]
    requires !Contains(a, pat) && !Contains(b, pat)
    ensures !Contains(a + b, pat)
  {
    if Contains(a + b, pat) {
      var i :| 0 <= i <= |a + b| && MatchAt(a + b, pat, i);
      if i + |pat| <= |a| {
        assert (a + b)[i..i + |pat|] == a[i..i + |pat|];
        assert MatchAt(a, pat, i);
      } else if i < |a| {
        NoStraddle(a, b, pat, i);
      } else {
        assert (a + b)[i..i + |pat|] == b[i - |a|..i - |a| + |pat|];
        assert MatchAt(b, pat, i - |a|);
      }
      assert false;
    }
  }

  /** A name that ends with `pat`, and has no other occurrence of it, gets
      just that suffix replaced. */
  lemma ReplaceSuffix(base: string, pat: string, rep: string)
    requires |pat| > 0 && pat[0] !in pat[1..]
    requires !Contains(base, pat)
    ensures ReplaceAll(base + pat, pat, rep) == base + rep
  {
    forall i | 0 <= i < |base|
      ensures !MatchAt(base + pat, pat, i)
    {
      if i + |pat| <= |base| {
        assert (base + pat)[i..i + |pat|] == base[i..i + |pat|];
        assert !MatchAt(base, pat, i);
      } else {
        NoStraddle(base, pat, pat, i);
      }
    }
    ReplaceAllSkipsPrefix(base, pat, pat, rep);
    assert pat[..|pat|] == pat && pat[|pat|..] == [];
    assert rep + [] == rep;
  }

  /** The name of the COCO file written for an image: every `.jpg` and then
      every `.png` in the image name is replaced by `.json`. */
  function OutputFileName(imagePath: string): string
  {
    ReplaceAll(ReplaceAll(imagePath, ".jpg", ".json"), ".png", ".json")
  }

  lemma PatternFacts()
    ensures ".jpg"[0] !in ".jpg"[1..] && ".png"[0] !in ".png"[1..]
    ensures !Contains(".json", ".png") && !Contains(".png", ".jpg")
  {
    assert ".jpg"[1..] == "jpg" && ".png"[1..] == "png";
    forall i | 0 <= i && i + 4 <= 5 ensures !MatchAt(".json", ".png", i) {
      assert ".json"[i..i + 4][1] == ".json"[i + 1] != 'p';
    }
    forall i | i == 0 ensures !MatchAt(".png", ".jpg", i) {
      assert ".png"[1] != 'j';
    }
  }

  /** `a.jpg` is written as `a.json`. */
  lemma OutputFileNameJpg(base: string)
    requires !Contains(base, ".jpg") && !Contains(base, ".png")
    ensures OutputFileName(base + ".jpg") == base + ".json"
  {
    PatternFacts();
    ReplaceSuffix(base, ".jpg", ".json");
    NoMatchInConcat(base, ".json", ".png");
    ReplaceAllAbsent(base + ".json", ".png", ".json");
  }

  /** `a.png` is written as `a.json`. */
  lemma OutputFileNamePng(base: string)
    requires !Contains(base, ".jpg") && !Contains(base, ".png")
    ensures OutputFileName(base + ".png") == base + ".json"
  {
    PatternFacts();
    NoMatchInConcat(base, ".png", ".jpg");
    ReplaceAllAbsent(base + ".png", ".jpg", ".json");
    ReplaceSuffix(base, ".png", ".json");
  }

  /** A name with neither `.jpg` nor `.png` in it is kept as it is (so the
      COCO file then has the image's own name). */
  lemma OutputFileNameUnchanged(imagePath: string)
    requires !Contains(imagePath, ".jpg") && !Contains(imagePath, ".png")
    ensures OutputFileName(imagePath) == imagePath
  {
    ReplaceAllAbsent(imagePath, ".jpg", ".json");
    ReplaceAllAbsent(imagePath, ".png", ".json");
  }

  /** The two image suffixes the output name rewrites. */
  predicate ImageSuffix(pat: string)
  {
    pat == ".jpg" || pat == ".png"
  }

  /** An occurrence of `q` in `a + b` starts inside `a` or lies inside `b`. */
  lemma NoMatchAfterPrefix(a: string, b: string, q: string)
    requires forall i :: 0 <= i < |a| ==> !MatchAt(a + b, q, i)
    requires !Contains(b, q)
    ensures !Contains(a + b, q)
  {
    forall i | 0 <= i <= |a + b|
      ensures !MatchAt(a + b, q, i)
    {
      if |a| <= i && i + |q| <= |a + b| {
        assert (a + b)[i..i + |q|] == b[i - |a|..i - |a| + |q|];
        assert !MatchAt(b, q, i - |a|);
      }
    }
  }

  /** An occurrence in a suffix of `s` is an occurrence in `s`. */
  lemma NoMatchInSuffix(s: string, q: string, k: nat)
    requires k <= |s|
    requires !Contains(s, q)
    ensures !Contains(s[k..], q)
  {
    forall i | 0 <= i <= |s[k..]|
      ensures !MatchAt(s[k..], q, i)
    {
      if i + |q| <= |s[k..]| {
        assert s[k..][i..i + |q|] == s[k + i..k + i + |q|];
        assert !MatchAt(s, q, k + i);
      }
    }
  }

  /** Replacing an image suffix by `.json` copies the leading characters
      before the first `.`, and keeps a `.` at the position of that first
      `.`, since both the suffix and `.json` begin with one. */
  lemma {:induction false} CopiesUntilDot(t: string, pat: string, n: nat)
    requires ImageSuffix(pat)
    requires n <= |t|
    requires forall i :: 0 <= i < n ==> t[i] != '.'
    ensures |ReplaceAll(t, pat, ".json")| >= n
    ensures forall i :: 0 <= i < n ==> ReplaceAll(t, pat, ".json")[i] == t[i]
    ensures n < |t| && t[n] == '.' ==> |ReplaceAll(t, pat, ".json")| > n && ReplaceAll(t, pat, ".json")[n] == '.'
    decreases n
  {
    var r := ReplaceAll(t, pat, ".json");
    if n > 0 && |t| >= |pat| {
      assert t[..|pat|][0] != pat[0];
      var r' := ReplaceAll(t[1..], pat, ".json");
      assert r == [t[0]] + r';
      CopiesUntilDot(t[1..], pat, n - 1);
    }
  }

  /** After every occurrence of an image suffix `pat` is replaced by `.json`,
      an image suffix `q` occurs nowhere: not `pat` itself, and not any `q`
      that did not occur before. */
  lemma {:induction false} NoSuffixLeft(s: string, pat: string, q: string)
    requires ImageSuffix(pat) && ImageSuffix(q)
    requires q == pat || !Contains(s, q)
    ensures !Contains(ReplaceAll(s, pat, ".json"), q)
    decreases |s|
  {
    var r := ReplaceAll(s, pat, ".json");
    if |s| < |pat| {
      assert r == s;
    } else if s[..|pat|] == pat {
      var rest := s[|pat|..];
      if q != pat {
        NoMatchInSuffix(s, q, |pat|);
      }
      NoSuffixLeft(rest, pat, q);
      assert r == ".json" + ReplaceAll(rest, pat, ".json");
      forall i | 0 <= i < |".json"|
        ensures !MatchAt(r, q, i)
      {
        if i == 0 {
          assert r[2] != q[2];
        } else {
          assert r[i] != q[0];
        }
      }
      NoMatchAfterPrefix(".json", ReplaceAll(rest, pat, ".json"), q);
    } else {
      var rest := s[1..];
      var r' := ReplaceAll(rest, pat, ".json");
      if q != pat {
        NoMatchInSuffix(s, q, 1);
      }
      NoSuffixLeft(rest, pat, q);
      assert r == [s[0]] + r';
      assert s[..|q|] != q by {
        if q != pat {
          assert !MatchAt(s, q, 0);
        }
      }
      NoMatchAtDot(s, pat, q);
      NoMatchAfterPrefix([s[0]], r', q);
    }
  }

  /** The step of `NoSuffixLeft` where the first character of `s` is copied:
      no `q` starts at it. */
  lemma NoMatchAtDot(s: string, pat: string, q: string)
    requires ImageSuffix(pat) && ImageSuffix(q)
    requires |s| >= 4 && s[..4] != q
    ensures !MatchAt([s[0]] + ReplaceAll(s[1..], pat, ".json"), q, 0)
  {
    if s[0] != '.' {
      NoDotFirst(s, pat, q);
    } else if s[1] == '.' {
      DotKeptAt(s, pat, q, 0);
    } else if s[2] == '.' {
      DotKeptAt(s, pat, q, 1);
    } else if s[3] == '.' {
      DotKeptAt(s, pat, q, 2);
    } else {
      NoDotCopied(s, pat, q);
    }
  }

  /** A `q` cannot start at a character other than `.`. */
  lemma NoDotFirst(s: string, pat: string, q: string)
    requires ImageSuffix(pat) && ImageSuffix(q)
    requires |s| > 0 && s[0] != '.'
    ensures !MatchAt([s[0]] + ReplaceAll(s[1..], pat, ".json"), q, 0)
  {
    var r := [s[0]] + ReplaceAll(s[1..], pat, ".json");
    if |q| <= |r| {
      assert r[..|q|][0] != q[0];
    }
  }

  /** When the first `.` after a leading `.` is at position `n + 1 < 4`, it
      is kept there, where `q` has a letter. */
  lemma DotKeptAt(s: string, pat: string, q: string, n: nat)
    requires ImageSuffix(pat) && ImageSuffix(q)
    requires n < 3 && |s| >= 4 && s[1 + n] == '.'
    requires forall i :: 1 <= i < 1 + n ==> s[i] != '.'
    ensures !MatchAt([s[0]] + ReplaceAll(s[1..], pat, ".json"), q, 0)
  {
    var r := [s[0]] + ReplaceAll(s[1..], pat, ".json");
    CopiesUntilDot(s[1..], pat, n);
    if |r| >= 4 {
      assert r[1 + n] == '.' != q[1 + n];
      assert r[..|q|][1 + n] == r[1 + n];
    }
  }

  /** When the three characters after a leading `.` are not `.`, they are
      copied, and they differ from those of `q`. */
  lemma NoDotCopied(s: string, pat: string, q: string)
    requires ImageSuffix(pat) && ImageSuffix(q)
    requires |s| >= 4 && s[..4] != q
    requires s[1] != '.' && s[2] != '.' && s[3] != '.'
    ensures !MatchAt([s[0]] + ReplaceAll(s[1..], pat, ".json"), q, 0)
  {
    var r := [s[0]] + ReplaceAll(s[1..], pat, ".json");
    CopiesUntilDot(s[1..], pat, 3);
    assert r[1] == s[1] && r[2] == s[2] && r[3] == s[3];
    if s[0] == q[0] {
      assert s[..4] == [s[0], s[1], s[2], s[3]];
      var k := if s[1] != q[1] then 1 else if s[2] != q[2] then 2 else 3;
      assert r[..|q|][k] != q[k];
    } else {
      assert r[..|q|][0] != q[0];
    }
  }

  /** The output name holds no `.jpg` and no `.png`, whatever the image name:
      every occurrence of each has been replaced. */
  lemma OutputFileNameHasNoImageSuffix(imagePath: string)
    ensures !Contains(OutputFileName(imagePath), ".jpg")
    ensures !Contains(OutputFileName(imagePath), ".png")
  {
    var once := ReplaceAll(imagePath, ".jpg", ".json");
    NoSuffixLeft(imagePath, ".jpg", ".jpg");
    NoSuffixLeft(once, ".png", ".jpg");
    NoSuffixLeft(once, ".png", ".png");
  }
}
