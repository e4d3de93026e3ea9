/** POSIX path arithmetic as Node's `path.posix` does it, on segment
    sequences, and the two compositions of `src/pathUtils.ts`.

    A `Path` records whether the text started with `/` and the non-empty
    pieces between slashes as written (so `.` and `..` may occur). `Join`
    and `Resolve` normalise, collapsing `.` and `..` the way Node's
    `normalizeString` does; `Dirname` drops the last piece. Parsing forgets
    repeated and trailing separators, which Node keeps in the text that
    `join` and `dirname` return (`join('/a', 'gen/')` is `/a/gen/`,
    `dirname('/a//s.ts')` is `/a/`, `dirname('//a')` is `//`); the texts
    differ there, the pieces they denote do not. The process working directory that
    `path.relative` resolves relative paths against is the parameter `cwd`
    (the pieces of an absolute path). */
module Paths {
  import opened Strings

  datatype Path = Path(absolute: bool, segments: seq<string>)

  /** A piece that names a directory entry (neither empty, `.`, nor `..`). */
  predicate Plain(seg: string)
  {
    seg != "" && seg != "." && seg != ".."
  }

  /** One step of Node's `normalizeString`: empty pieces and `.` vanish, `..`
      removes the last kept piece unless that is itself `..`; above the root
      of an absolute path `..` vanishes, in a relative path it is kept. */
  function Push(abs: bool, acc: seq<string>, seg: string): seq<string>
  {
    if seg == "" || seg == "." then acc
    else if seg == ".." then
      if |acc| > 0 && acc[|acc| - 1] != ".." then acc[..|acc| - 1]
      else if abs then acc
      else acc + [".."]
    else acc + [seg]
  }

  /** The pieces `raw` pushed one by one onto `acc`. */
  function NormalizeFrom(abs: bool, acc: seq<string>, raw: seq<string>): seq<string>
    decreases |raw|
  {
    if |raw| == 0 then acc
    else Push(abs, NormalizeFrom(abs, acc, raw[..|raw| - 1]), raw[|raw| - 1])
  }

  /** Normal form: no empty piece and no `.`; `..` only at the front, and
      never in an absolute path. */
  predicate Normal(abs: bool, segs: seq<string>)
  {
    && (forall i :: 0 <= i < |segs| ==> segs[i] != "" && segs[i] != ".")
    && (abs ==> forall i :: 0 <= i < |segs| ==> segs[i] != "..")
    && (forall i, j :: 0 <= i < j < |segs| && segs[j] == ".." ==> segs[i] == "..")
  }

  predicate IsNormal(p: Path)
  {
    Normal(p.absolute, p.segments)
  }

  /** `path.normalize` without the trailing separator. */
  function Canonical(p: Path): Path
  {
    Path(p.absolute, NormalizeFrom(p.absolute, [], p.segments))
  }

  /** `path.join(a, b)` for a path `a` whose text is not empty: the two
      texts joined by `/` and normalised, so that a leading `/` of `b` is
      a separator like any other. Node skips an empty argument, so that
      `path.join('', '/x')` is `/x`; `Path(false, [])` here stands for the
      text `.`, and a caller with an empty text treats that case itself. */
  function Join(a: Path, b: Path): Path
  {
    Canonical(Path(a.absolute, a.segments + b.segments))
  }

  /** `path.dirname(p)`: everything before the last piece; `/` and `.` for a
      path with a single piece. */
  function Dirname(p: Path): Path
  {
    if |p.segments| == 0 then p else Path(p.absolute, p.segments[..|p.segments| - 1])
  }

  /** `path.basename(p)`: the last piece, or the empty text for the root. */
  function Basename(p: Path): string
  {
    if |p.segments| == 0 then "" else p.segments[|p.segments| - 1]
  }

  /** `path.basename(s, ext)`: the last piece with a trailing `ext` removed,
      unless that would leave nothing; a text equal to `ext` gives "". */
  function BasenameWithoutExt(s: string, ext: string): string
  {
    if s == ext then ""
    else
      var b := Basename(Parse(s));
      if |b| > |ext| && EndsWith(b, ext) then b[..|b| - |ext|] else b
  }

  /** The items of `xs` that are not the empty text. */
  function NonEmpty(xs: seq<string>): seq<string>
  {
    if |xs| == 0 then [] else (if xs[0] == "" then [] else [xs[0]]) + NonEmpty(xs[1..])
  }

  /** The path a text denotes. */
  function Parse(s: string): Path
  {
    Path(|s| > 0 && s[0] == '/', NonEmpty(Split(s, '/')))
  }

  /** The text of a path: `/` before an absolute one, `.` for the empty
      relative one. */
  function Format(p: Path): string
  {
    if p.absolute then "/" + Strings.Join(p.segments, "/")
    else if |p.segments| == 0 then "."
    else Strings.Join(p.segments, "/")
  }

  /** `path.resolve(p)` from the working directory `cwd`. */
  function Resolve(cwd: seq<string>, p: Path): Path
  {
    Canonical(Path(true, (if p.absolute then [] else cwd) + p.segments))
  }

  /** `path.resolve(dir, p)`: an absolute `p` stands for itself, a relative
      one is read from `dir`; this is how a module specifier that starts
      with `./`, `../` or `/` is looked up from the importing file's
      directory. */
  function ResolveFrom(cwd: seq<string>, dir: Path, p: Path): Path
  {
    if p.absolute then Resolve(cwd, p) else Resolve(cwd, Join(dir, p))
  }

  /** The length of the longest common prefix of `a` and `b`. */
  function CommonPrefixLength(a: seq<string>, b: seq<string>): (c: nat)
    ensures c <= |a| && c <= |b|
    ensures a[..c] == b[..c]
    ensures c < |a| && c < |b| ==> a[c] != b[c]
  {
    if |a| == 0 || |b| == 0 || a[0] != b[0] then 0
    else
      var c' := CommonPrefixLength(a[1..], b[1..]);
      assert a[..c' + 1] == [a[0]] + a[1..][..c'];
      assert b[..c' + 1] == [b[0]] + b[1..][..c'];
      c' + 1
  }

  /** `k` pieces `..`. */
  function Ups(k: nat): seq<string>
  {
    if k == 0 then [] else Ups(k - 1) + [".."]
  }

  /** `path.relative(from, to)`: both are resolved, the common leading
      directories are stripped, and what is left of `from` becomes `..`. */
  function Relative(cwd: seq<string>, from: Path, to: Path): Path
  {
    var f := Resolve(cwd, from).segments;
    var t := Resolve(cwd, to).segments;
    var c := CommonPrefixLength(f, t);
    Path(false, Ups(|f| - c) + t[c..])
  }

  /** `resolveRelatioveStateFilePath` (src/pathUtils.ts:8-10). */
  function ResolveRelativeStateFilePath(cwd: seq<string>, baseDirPath: Path, relativePath: Path): Path
  {
    Relative(cwd, baseDirPath, relativePath)
  }

  /** `normalizePath` (src/pathUtils.ts:3-6): where `relativeFilePath`, read
      from the directory of `rootFilePath`, lies as seen from
      `baseDirPath`. */
  function NormalizePath(cwd: seq<string>, baseDirPath: Path, rootFilePath: Path, relativeFilePath: Path): Path
  {
    Relative(cwd, baseDirPath, Join(Dirname(rootFilePath), relativeFilePath))
  }

  // ---------------------------------------------------------------------
  // Normalisation

  lemma NormalPrefix(abs: bool, s: seq<string>, k: nat)
    requires Normal(abs, s) && k <= |s|
    ensures Normal(abs, s[..k])
  {
  }

  lemma PushNormal(abs: bool, acc: seq<string>, seg: string)
    requires Normal(abs, acc)
    ensures Normal(abs, Push(abs, acc, seg))
  {
    if seg == ".." && !(|acc| > 0 && acc[|acc| - 1] != "..") && !abs {
      var r := acc + [".."];
      forall i, j | 0 <= i < j < |r| && r[j] == ".." ensures r[i] == ".." {
        if j < |acc| {
          assert r[i] == acc[i] && r[j] == acc[j];
        } else {
          assert acc[|acc| - 1] == "..";
          if i < |acc| - 1 { assert acc[i] == ".."; }
        }
      }
    } else if seg == ".." && |acc| > 0 && acc[|acc| - 1] != ".." {
      NormalPrefix(abs, acc, |acc| - 1);
    }
  }

  /** Normalising yields the normal form. */
  lemma {:induction false} NormalizeNormal(abs: bool, acc: seq<string>, raw: seq<string>)
    requires Normal(abs, acc)
    ensures Normal(abs, NormalizeFrom(abs, acc, raw))
    decreases |raw|
  {
    if |raw| > 0 {
      NormalizeNormal(abs, acc, raw[..|raw| - 1]);
      PushNormal(abs, NormalizeFrom(abs, acc, raw[..|raw| - 1]), raw[|raw| - 1]);
    }
  }

  lemma NormalizeSnoc(abs: bool, acc: seq<string>, raw: seq<string>, seg: string)
    ensures NormalizeFrom(abs, acc, raw + [seg]) == Push(abs, NormalizeFrom(abs, acc, raw), seg)
  {
    assert (raw + [seg])[..|raw|] == raw;
  }

  /** Normalising a concatenation continues from the normalised first part. */
  lemma {:induction false} NormalizeConcat(abs: bool, acc: seq<string>, xs: seq<string>, ys: seq<string>)
    ensures NormalizeFrom(abs, acc, xs + ys) == NormalizeFrom(abs, NormalizeFrom(abs, acc, xs), ys)
    decreases |ys|
  {
    if |ys| == 0 {
      assert xs + ys == xs;
    } else {
      var ys' := ys[..|ys| - 1];
      var y := ys[|ys| - 1];
      assert ys == ys' + [y];
      assert xs + ys == (xs + ys') + [y];
      NormalizeSnoc(abs, acc, xs + ys', y);
      NormalizeConcat(abs, acc, xs, ys');
      NormalizeSnoc(abs, NormalizeFrom(abs, acc, xs), ys', y);
    }
  }

  /** Pieces already in normal form are kept as they are. */
  lemma {:induction false} NormalizeKeeps(abs: bool, acc: seq<string>, ys: seq<string>)
    requires Normal(abs, acc + ys)
    ensures NormalizeFrom(abs, acc, ys) == acc + ys
    decreases |ys|
  {
    if |ys| == 0 {
      assert acc + ys == acc;
    } else {
      var ys' := ys[..|ys| - 1];
      var y := ys[|ys| - 1];
      assert ys == ys' + [y];
      assert acc + ys == (acc + ys') + [y];
      NormalPrefix(abs, acc + ys, |acc + ys'|);
      assert (acc + ys)[..|acc + ys'|] == acc + ys';
      NormalizeKeeps(abs, acc, ys');
      NormalizeSnoc(abs, acc, ys', y);
      var k := |acc + ys'|;
      assert (acc + ys)[k] == y;
      if y == ".." && k > 0 {
        assert (acc + ys)[k - 1] == "..";
      }
    }
  }

  lemma NormalizeNormalIsIdentity(abs: bool, segs: seq<string>)
    requires Normal(abs, segs)
    ensures NormalizeFrom(abs, [], segs) == segs
  {
    NormalizeKeeps(abs, [], segs);
    assert [] + segs == segs;
  }

  /** Normalising a relative text first and then reading it from an
      absolute directory is the same as reading it unnormalised. */
  lemma {:induction false} NormalizeAbsorbs(acc: seq<string>, xs: seq<string>)
    ensures NormalizeFrom(true, acc, NormalizeFrom(false, [], xs)) == NormalizeFrom(true, acc, xs)
    decreases |xs|
  {
    if |xs| > 0 {
      var xs' := xs[..|xs| - 1];
      var x := xs[|xs| - 1];
      assert xs == xs' + [x];
      var r := NormalizeFrom(false, [], xs');
      NormalizeAbsorbs(acc, xs');
      NormalizeSnoc(false, [], xs', x);
      NormalizeSnoc(true, acc, xs', x);
      NormalizeNormal(false, [], xs');
      if x == "" || x == "." {
      } else if x == ".." {
        if |r| > 0 && r[|r| - 1] != ".." {
          var r' := r[..|r| - 1];
          assert r == r' + [r[|r| - 1]];
          NormalizeSnoc(true, acc, r', r[|r| - 1]);
        } else {
          NormalizeSnoc(true, acc, r, "..");
        }
      } else {
        NormalizeSnoc(true, acc, r, x);
      }
    }
  }

  // ---------------------------------------------------------------------
  // Text form

  /** The pieces `NonEmpty` keeps are not empty. */
  lemma {:induction false} NonEmptyDropsEmpty(xs: seq<string>)
    ensures forall i :: 0 <= i < |NonEmpty(xs)| ==> NonEmpty(xs)[i] != ""
  {
    if |xs| > 0 {
      NonEmptyDropsEmpty(xs[1..]);
      var h := if xs[0] == "" then [] else [xs[0]];
      assert NonEmpty(xs) == h + NonEmpty(xs[1..]);
    }
  }

  lemma {:induction false} NonEmptyKeeps(xs: seq<string>)
    requires forall i :: 0 <= i < |xs| ==> xs[i] != ""
    ensures NonEmpty(xs) == xs
  {
    if |xs| > 0 {
      NonEmptyKeeps(xs[1..]);
      assert [xs[0]] + xs[1..] == xs;
    }
  }

  lemma FormatParseAbsolute(segs: seq<string>)
    requires forall i :: 0 <= i < |segs| ==> segs[i] != "" && '/' !in segs[i]
    ensures Parse(Format(Path(true, segs))) == Path(true, segs)
  {
    var t := Format(Path(true, segs));
    var j := Strings.Join(segs, "/");
    assert t == "" + "/" + j;
    SplitAround("", j, '/');
    if |segs| == 0 {
      assert Split(t, '/') == [""] + [""];
      assert NonEmpty([""]) == [];
      assert NonEmpty([""] + [""]) == [] by { assert ([""] + [""])[1..] == [""]; }
    } else {
      SplitJoinRoundTrip(segs, '/');
      NonEmptyKeeps(segs);
      assert ([""] + segs)[1..] == segs;
    }
  }

  lemma FormatParseRelative(segs: seq<string>)
    requires |segs| > 0
    requires forall i :: 0 <= i < |segs| ==> segs[i] != "" && '/' !in segs[i]
    ensures Parse(Format(Path(false, segs))) == Path(false, segs)
  {
    var t := Format(Path(false, segs));
    SplitJoinRoundTrip(segs, '/');
    NonEmptyKeeps(segs);
    if |segs| == 1 {
      assert t == segs[0];
    } else {
      assert t == segs[0] + "/" + Strings.Join(segs[1..], "/");
    }
    assert t[0] == segs[0][0];
    assert segs[0][0] in segs[0];
  }

  /** Round trip through text: a normal path whose pieces hold no `/` is
      read back from its text, up to normalisation (the text `.` of the
      empty relative path is read back as the piece `.`). */
  lemma FormatParseRoundTrip(p: Path)
    requires IsNormal(p)
    requires forall i :: 0 <= i < |p.segments| ==> '/' !in p.segments[i]
    ensures Canonical(Parse(Format(p))) == p
    ensures p.absolute || |p.segments| > 0 ==> Parse(Format(p)) == p
  {
    NormalizeNormalIsIdentity(p.absolute, p.segments);
    if p.absolute {
      FormatParseAbsolute(p.segments);
    } else if |p.segments| == 0 {
      SplitNoSeparator(".", '/');
      assert NonEmpty(["."]) == ["."];
      assert NormalizeFrom(false, [], ["."]) == Push(false, [], ".");
    } else {
      FormatParseRelative(p.segments);
    }
  }

  // ---------------------------------------------------------------------
  // join and dirname

  /** A leading `..` of the joined part climbs out of the last directory:
      `join(a, '../r')` is `join(dirname(a), r)`. */
  lemma JoinCollapsesParent(a: Path, r: seq<string>)
    requires IsNormal(a)
    requires a.absolute || (|a.segments| > 0 && a.segments[|a.segments| - 1] != "..")
    ensures Join(a, Path(false, [".."] + r)) == Join(Dirname(a), Path(false, r))
  {
    var abs, s := a.absolute, a.segments;
    var d := Dirname(a).segments;
    assert s + ([".."] + r) == (s + [".."]) + r;
    NormalizeConcat(abs, [], s + [".."], r);
    NormalizeSnoc(abs, [], s, "..");
    NormalizeNormalIsIdentity(abs, s);
    if |s| > 0 {
      assert d == s[..|s| - 1];
    }
    assert NormalizeFrom(abs, [], s + [".."]) == d;
    NormalPrefix(abs, s, |d|);
    NormalizeConcat(abs, [], d, r);
    NormalizeNormalIsIdentity(abs, d);
  }

  /** A `.` piece of the joined part is dropped. */
  lemma JoinSkipsCurrent(a: Path, r: seq<string>)
    ensures Join(a, Path(false, ["."] + r)) == Join(a, Path(false, r))
  {
    var abs, s := a.absolute, a.segments;
    assert s + (["."] + r) == (s + ["."]) + r;
    NormalizeConcat(abs, [], s + ["."], r);
    NormalizeSnoc(abs, [], s, ".");
    NormalizeConcat(abs, [], s, r);
  }

  /** `join(dirname(p), basename(p))` gives `p` back. */
  lemma DirnameBasenameJoin(p: Path)
    requires IsNormal(p)
    requires |p.segments| > 0 && p.segments[|p.segments| - 1] != ".."
    ensures Join(Dirname(p), Path(false, [Basename(p)])) == p
  {
    var s := p.segments;
    assert Dirname(p).segments + [Basename(p)] == s;
    NormalizeNormalIsIdentity(p.absolute, s);
  }

  // ---------------------------------------------------------------------
  // resolve and relative

  lemma ResolveNormal(cwd: seq<string>, p: Path)
    ensures Resolve(cwd, p).absolute
    ensures Normal(true, Resolve(cwd, p).segments)
  {
    NormalizeNormal(true, [], (if p.absolute then [] else cwd) + p.segments);
  }

  /** Normalising twice is normalising once. */
  lemma NormalizeIdempotent(abs: bool, xs: seq<string>)
    ensures NormalizeFrom(abs, [], NormalizeFrom(abs, [], xs)) == NormalizeFrom(abs, [], xs)
  {
    NormalizeNormal(abs, [], xs);
    NormalizeNormalIsIdentity(abs, NormalizeFrom(abs, [], xs));
  }

  /** Normalising a normalised prefix followed by more pieces. */
  lemma NormalizeContinue(abs: bool, xs: seq<string>, ys: seq<string>)
    ensures NormalizeFrom(abs, [], NormalizeFrom(abs, [], xs) + ys) == NormalizeFrom(abs, [], xs + ys)
  {
    var n := NormalizeFrom(abs, [], xs);
    calc {
      NormalizeFrom(abs, [], n + ys);
      { NormalizeConcat(abs, [], n, ys); }
      NormalizeFrom(abs, NormalizeFrom(abs, [], n), ys);
      { NormalizeIdempotent(abs, xs); }
      NormalizeFrom(abs, n, ys);
      { NormalizeConcat(abs, [], xs, ys); }
      NormalizeFrom(abs, [], xs + ys);
    }
  }

  /** An absolute path continued by a normalised relative one. */
  lemma NormalizeAbsorbsAfter(xs: seq<string>, ys: seq<string>)
    ensures NormalizeFrom(true, [], xs + NormalizeFrom(false, [], ys)) == NormalizeFrom(true, [], xs + ys)
  {
    calc {
      NormalizeFrom(true, [], xs + NormalizeFrom(false, [], ys));
      { NormalizeConcat(true, [], xs, NormalizeFrom(false, [], ys)); }
      NormalizeFrom(true, NormalizeFrom(true, [], xs), NormalizeFrom(false, [], ys));
      { NormalizeAbsorbs(NormalizeFrom(true, [], xs), ys); }
      NormalizeFrom(true, NormalizeFrom(true, [], xs), ys);
      { NormalizeConcat(true, [], xs, ys); }
      NormalizeFrom(true, [], xs + ys);
    }
  }

  /** Resolving a joined path is joining onto the resolved directory. */
  lemma ResolveJoin(cwd: seq<string>, a: Path, b: Path)
    ensures Resolve(cwd, Join(a, b)) == Join(Resolve(cwd, a), b)
  {
    var s, t := a.segments, b.segments;
    if a.absolute {
      assert [] + s == s;
      assert [] + NormalizeFrom(true, [], s + t) == NormalizeFrom(true, [], s + t);
      calc {
        Resolve(cwd, Join(a, b)).segments;
        NormalizeFrom(true, [], NormalizeFrom(true, [], s + t));
        { NormalizeIdempotent(true, s + t); }
        NormalizeFrom(true, [], s + t);
        { NormalizeContinue(true, s, t); }
        NormalizeFrom(true, [], NormalizeFrom(true, [], s) + t);
        Join(Resolve(cwd, a), b).segments;
      }
    } else {
      calc {
        Resolve(cwd, Join(a, b)).segments;
        NormalizeFrom(true, [], cwd + NormalizeFrom(false, [], s + t));
        { NormalizeAbsorbsAfter(cwd, s + t); }
        NormalizeFrom(true, [], cwd + (s + t));
        { assert cwd + (s + t) == (cwd + s) + t; }
        NormalizeFrom(true, [], (cwd + s) + t);
        { NormalizeContinue(true, cwd + s, t); }
        NormalizeFrom(true, [], NormalizeFrom(true, [], cwd + s) + t);
        Join(Resolve(cwd, a), b).segments;
      }
    }
  }

  /** Joining is associative when the outer directory is absolute and the
      middle part relative. */
  lemma JoinAbsoluteAssociative(a: Path, r: Path, x: Path)
    requires a.absolute && !r.absolute
    ensures Join(Join(a, r), x) == Join(a, Join(r, x))
  {
    var s, u, v := a.segments, r.segments, x.segments;
    calc {
      Join(Join(a, r), x).segments;
      NormalizeFrom(true, [], NormalizeFrom(true, [], s + u) + v);
      { NormalizeContinue(true, s + u, v); }
      NormalizeFrom(true, [], (s + u) + v);
      { assert (s + u) + v == s + (u + v); }
      NormalizeFrom(true, [], s + (u + v));
      { NormalizeAbsorbsAfter(s, u + v); }
      NormalizeFrom(true, [], s + NormalizeFrom(false, [], u + v));
      Join(a, Join(r, x)).segments;
    }
  }

  lemma {:induction false} PopUps(b: seq<string>, k: nat)
    requires Normal(true, b) && k <= |b|
    ensures NormalizeFrom(true, b, Ups(k)) == b[..|b| - k]
  {
    if k > 0 {
      PopUps(b, k - 1);
      NormalizeSnoc(true, b, Ups(k - 1), "..");
      assert Ups(k) == Ups(k - 1) + [".."];
      var q := b[..|b| - k + 1];
      assert b[|b| - k] != "..";
      assert q[|q| - 1] == b[|b| - k];
      assert q[..|q| - 1] == b[..|b| - k];
    } else {
      assert b[..|b|] == b;
    }
  }

  lemma UpsAreUps(k: nat)
    ensures |Ups(k)| == k
    ensures forall i :: 0 <= i < k ==> Ups(k)[i] == ".."
  {
    if k > 0 { UpsAreUps(k - 1); }
  }

  /** `resolveRelatioveStateFilePath(d, d)` is the empty path. */
  lemma RelativeToItself(cwd: seq<string>, d: Path)
    ensures ResolveRelativeStateFilePath(cwd, d, d) == Path(false, [])
  {
    var f := Resolve(cwd, d).segments;
    var c := CommonPrefixLength(f, f);
    assert c == |f|;
  }

  /** Round trip: reading the relative path from the base directory leads
      back to the target. */
  lemma RelativeRoundTrip(cwd: seq<string>, base: Path, target: Path)
    ensures Join(Resolve(cwd, base), ResolveRelativeStateFilePath(cwd, base, target)) == Resolve(cwd, target)
  {
    var b := Resolve(cwd, base).segments;
    var t := Resolve(cwd, target).segments;
    ResolveNormal(cwd, base);
    ResolveNormal(cwd, target);
    var c := CommonPrefixLength(b, t);
    var ups := Ups(|b| - c);
    assert ResolveRelativeStateFilePath(cwd, base, target).segments == ups + t[c..];
    calc {
      Join(Resolve(cwd, base), ResolveRelativeStateFilePath(cwd, base, target)).segments;
      NormalizeFrom(true, [], b + (ups + t[c..]));
      { assert b + (ups + t[c..]) == (b + ups) + t[c..]; }
      NormalizeFrom(true, [], (b + ups) + t[c..]);
      { NormalizeConcat(true, [], b + ups, t[c..]); }
      NormalizeFrom(true, NormalizeFrom(true, [], b + ups), t[c..]);
      { NormalizeConcat(true, [], b, ups); NormalizeNormalIsIdentity(true, b); }
      NormalizeFrom(true, NormalizeFrom(true, b, ups), t[c..]);
      { PopUps(b, |b| - c); }
      NormalizeFrom(true, b[..c], t[c..]);
      { assert b[..c] == t[..c]; }
      NormalizeFrom(true, t[..c], t[c..]);
      { assert t[..c] + t[c..] == t; NormalizeKeeps(true, t[..c], t[c..]); }
      t;
    }
  }

  /** The relative path climbs with `..` exactly when the target is not
      inside the base directory; inside, it is the rest of the target. */
  lemma RelativeClimbsIffOutside(cwd: seq<string>, base: Path, target: Path)
    ensures var b := Resolve(cwd, base).segments;
            var t := Resolve(cwd, target).segments;
            var r := ResolveRelativeStateFilePath(cwd, base, target).segments;
            && (b <= t ==> r == t[|b|..])
            && (b <= t <==> forall i :: 0 <= i < |r| ==> r[i] != "..")
            && (!(b <= t) ==> |r| > 0 && r[0] == "..")
  {
    ResolveNormal(cwd, target);
    ClimbSegments(Resolve(cwd, base).segments, Resolve(cwd, target).segments);
  }

  /** The same on segments: climbing out of `b` towards a `t` without `..`. */
  lemma ClimbSegments(b: seq<string>, t: seq<string>)
    requires forall i :: 0 <= i < |t| ==> t[i] != ".."
    ensures var r := Ups(|b| - CommonPrefixLength(b, t)) + t[CommonPrefixLength(b, t)..];
            && (b <= t ==> r == t[|b|..] && forall i :: 0 <= i < |r| ==> r[i] != "..")
            && (!(b <= t) ==> |r| > 0 && r[0] == "..")
  {
    var c := CommonPrefixLength(b, t);
    var r := Ups(|b| - c) + t[c..];
    UpsAreUps(|b| - c);
    if c == |b| {
      assert b == b[..c];
      assert b <= t;
      assert r == t[|b|..];
      forall i | 0 <= i < |r| ensures r[i] != ".." { assert r[i] == t[|b| + i]; }
    } else {
      assert r[0] == "..";
      assert c < |t| ==> b[c] != t[c];
      assert |b| <= |t| ==> t[..|b|][c] == t[c];
      assert !(b <= t);
    }
  }

  /** `normalizePath` round trip: reading its result from the base
      directory reaches the file `relativeFilePath` names next to the root
      file. */
  lemma NormalizePathRoundTrip(cwd: seq<string>, baseDirPath: Path, rootFilePath: Path, relativeFilePath: Path)
    ensures Join(Resolve(cwd, baseDirPath), NormalizePath(cwd, baseDirPath, rootFilePath, relativeFilePath))
         == Resolve(cwd, Join(Dirname(rootFilePath), relativeFilePath))
  {
    RelativeRoundTrip(cwd, baseDirPath, Join(Dirname(rootFilePath), relativeFilePath));
  }

  /** A path written relative to `toDir`, re-rooted under
      `relative(fromDir, toDir)`, names the same file when read from
      `fromDir`. */
  lemma RerootedJoinResolvesSame(cwd: seq<string>, fromDir: Path, toDir: Path, x: Path)
    ensures Resolve(cwd, Join(fromDir, Join(ResolveRelativeStateFilePath(cwd, fromDir, toDir), x)))
         == Resolve(cwd, Join(toDir, x))
  {
    var rel := ResolveRelativeStateFilePath(cwd, fromDir, toDir);
    ResolveJoin(cwd, fromDir, Join(rel, x));
    ResolveNormal(cwd, fromDir);
    JoinAbsoluteAssociative(Resolve(cwd, fromDir), rel, x);
    RelativeRoundTrip(cwd, fromDir, toDir);
    ResolveJoin(cwd, toDir, x);
  }

  // ---------------------------------------------------------------------
  // Pieces without separators

  /** No piece of `segs` holds a `/`, so the text form keeps the pieces
      apart. */
  predicate NoSlash(segs: seq<string>)
  {
    forall i :: 0 <= i < |segs| ==> '/' !in segs[i]
  }

  lemma NoSlashConcat(a: seq<string>, b: seq<string>)
    requires NoSlash(a) && NoSlash(b)
    ensures NoSlash(a + b)
  {
    assert forall i :: |a| <= i < |a + b| ==> (a + b)[i] == b[i - |a|];
  }

  lemma {:induction false} NonEmptyNoSlash(xs: seq<string>)
    requires NoSlash(xs)
    ensures NoSlash(NonEmpty(xs))
  {
    if |xs| > 0 {
      NonEmptyNoSlash(xs[1..]);
      NoSlashConcat(if xs[0] == "" then [] else [xs[0]], NonEmpty(xs[1..]));
    }
  }

  /** The pieces of a parsed text hold no `/`. */
  lemma ParseNoSlash(s: string)
    ensures NoSlash(Parse(s).segments)
  {
    SplitPiecesFree(s, '/');
    NonEmptyNoSlash(Split(s, '/'));
  }

  lemma {:induction false} NormalizeNoSlash(abs: bool, acc: seq<string>, raw: seq<string>)
    requires NoSlash(acc) && NoSlash(raw)
    ensures NoSlash(NormalizeFrom(abs, acc, raw))
    decreases |raw|
  {
    if |raw| > 0 {
      var init := raw[..|raw| - 1];
      assert forall i :: 0 <= i < |init| ==> init[i] == raw[i];
      NormalizeNoSlash(abs, acc, init);
      var a := NormalizeFrom(abs, acc, init);
      assert forall i :: 0 <= i < |a| - 1 ==> a[..|a| - 1][i] == a[i];
      NoSlashConcat(a, [raw[|raw| - 1]]);
      NoSlashConcat(a, [".."]);
    }
  }

  lemma JoinNoSlash(a: Path, b: Path)
    requires NoSlash(a.segments) && NoSlash(b.segments)
    ensures NoSlash(Join(a, b).segments)
  {
    NoSlashConcat(a.segments, b.segments);
    NormalizeNoSlash(a.absolute, [], a.segments + b.segments);
  }

  lemma ResolveNoSlash(cwd: seq<string>, p: Path)
    requires NoSlash(cwd) && NoSlash(p.segments)
    ensures NoSlash(Resolve(cwd, p).segments)
  {
    NoSlashConcat(if p.absolute then [] else cwd, p.segments);
    NormalizeNoSlash(true, [], (if p.absolute then [] else cwd) + p.segments);
  }

  lemma {:induction false} UpsNoSlash(k: nat)
    ensures NoSlash(Ups(k))
  {
    if k > 0 {
      UpsNoSlash(k - 1);
      NoSlashConcat(Ups(k - 1), [".."]);
    }
  }

  lemma RelativeNoSlash(cwd: seq<string>, from: Path, to: Path)
    requires NoSlash(cwd) && NoSlash(to.segments)
    ensures NoSlash(Relative(cwd, from, to).segments)
  {
    var f := Resolve(cwd, from).segments;
    var t := Resolve(cwd, to).segments;
    var c := CommonPrefixLength(f, t);
    ResolveNoSlash(cwd, to);
    UpsNoSlash(|f| - c);
    assert forall i :: 0 <= i < |t| - c ==> t[c..][i] == t[c + i];
    NoSlashConcat(Ups(|f| - c), t[c..]);
  }

  /** Writing a joined path out and reading it back, then reading it from
      a directory, names what the joined path names from there: the text
      of the empty relative path is `.`, which reads as nothing. */
  lemma FormatJoinParse(dir: Path, q: Path)
    requires IsNormal(q) && NoSlash(q.segments)
    ensures Join(dir, Parse(Format(q))) == Join(dir, q)
  {
    FormatParseRoundTrip(q);
    if !q.absolute && |q.segments| == 0 {
      assert Format(q) == ".";
      assert Split(".", '/') == ["."];
      assert Parse(Format(q)) == Path(false, ["."] + []);
      JoinSkipsCurrent(dir, []);
    }
  }
}
